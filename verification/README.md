# nghttp2-corosio: a verified model of the callback/coroutine bridge

nghttp2-corosio lets coroutines read and write HTTP/2 bodies while nghttp2 works through synchronous
callbacks. This project models that bridge in Dafny and proves what it promises over every
interleaving: one stream's two directions, the session that pumps any number of streams through one
socket, the composed public writes, the echo handler on top, the header lists that travel along, and
the counted tasks that a server waits for when it is destroyed.

## How it is built

| file | what it holds |
|---|---|
| `Bytes.dfy`, `Capy.dfy` | buffer sequences, and `capy::async_event` with at most one waiter |
| `ReadSide.dfy`, `WriteSide.dfy`, `StatusSide.dfy` | each coroutine of a stream cut at its `co_await` into a begin half and a resume half, each callback, the runs they can form with nghttp2, and the invariant of those runs |
| `ReadTheorems.dfy`, `WriteTheorems.dfy` | what all runs of one stream guarantee |
| `StreamWorld.dfy` | one stream: the three sides, which share only the close |
| `Session.dfy`, `SessionInvariant.dfy`, `SessionTheorems.dfy` | `send_loop`, `recv_loop`, the stream table, submission, the final sweep, and any number of streams, as one state machine, and what all its runs keep safe |
| `SessionProgress.dfy` | a measure that every step of `send_loop` lowers, and what it makes `send_loop` achieve |
| `SendLoop.dfy` | `send_loop` as the loop it is, against a script of what it meets |
| `Compose.dfy`, `Echo.dfy`, `EchoTheorems.dfy` | the public `write`/`write_eof` and the echo handler, each interleaved with everything else that can happen to its stream |
| `Impl.dfy` | `Stream`, its `Sink` and the table of `Session::Impl` as objects updated in place, each method (callbacks, read, write and status halves, header capture, `create_stream`, `submit_request`, `close_stream`) proved to do what the side functions say, calls into nghttp2 and `start_write()` included; the table below names those that do more than mirror one |
| `Headers.dfy` | header assembly and capture, `to_string`, `from_chars` |
| `TaskGroup.dfy` | `TaskGroup`, `accept_loop` and the drain loop of `~Impl()` |

A run is a sequence of events; an event is enabled when the environment may make it happen. The
environment is bound by these rules and no others:

- Scheduling is single-threaded and switches only at awaits. `async_event::set()` posts a resumption and
  never runs it. A wait ends with success or with a cancellation, and a cancellation may reach any wait.
- A stream has at most one read, one write and one status call outstanding, in any combination.
- nghttp2 calls the data provider with a positive length within both send windows, never while the
  provider is deferred, finished or the stream closed. It delivers no DATA after END_STREAM and none
  beyond the window it granted, and grants stream credit only for consumed bytes (sections 5.2 and 6.9 of
  RFC 9113). It has output exactly when a control frame or GOAWAY is queued, a submitted stream's HEADERS
  are not held back by the concurrency limit, or an active provider has room in both windows. Once its
  GOAWAY went out after termination it wants neither to read nor to write.
- capy's composed `write()` calls `write_some()` on what is left until nothing is, adds up the counts and
  stops at the first error; `const_buffer_array` keeps the first 16 descriptors.
- Whether nghttp2 accepts a response for a stream that is gone is its own choice; it has no effect there.

Some promises do not hold as one might word them, and are stated with the exact condition:

- `status()` is documented to wake when the stream closes, but never looks at `closed_` before waiting. A
  call made after the close, without a status, waits for ever: `StatusSide.StatusCallHangsExactly`. A `:status` of 2^31 or more ends the wait but, stored
  in an `int`, counts as none: `StatusSide.StatusIsExact`.
- A read whose destination has no room can be parked in front of buffered bytes and can be told `eof`
  before they were read, and only such a read can: `ReadTheorems.ParkingIsSafeExactly`,
  `ReadTheorems.VerdictIsTimelyExactly`.
- Closing a stream ends a parked write without an error, so the success of a `write_eof` does not mean that
  EOF was raised. It is raised if and only if nghttp2 pulls the whole request while the call is suspended,
  whether or not a close follows before it resumes; a success without that is the doing of a close:
  `WriteTheorems.WriteCallIsExact`, `WriteTheorems.CloseEndsWriteWithoutError`, and for the composed
  call and the echo handler `Compose.ComposedWriteIsExact`, `Echo.EchoIsComplete`.
- If capy's buffer arrays keep empty buffers, as they are taken to here, the composed `write()` need not
  terminate: with 16 empty buffers in a row in front of a byte it can go round for ever. Without such a gap
  it terminates: `Compose.ComposedWriteTerminatesExactly`, `Compose.GapIsUnbounded`.
- The end of `run()` closes every stream, but `submit_request` still accepts a request afterwards, and
  nobody is left to close its stream. Those streams, and no others, stay open, and a wait on one of them
  lasts until it is cancelled: `SessionTheorems.OnlyLateRequestsStayOpen`, `SessionTheorems.AfterTheEnd`.

`dafny verify dfyconfig.toml` checks everything.

## Model

| member | source | states |
|---|---|---|
| ReadTheorems.RunRefinesFifo | src/stream_impl.hpp:133-222 | Over every interleaving of arrivals, reads, cancellations, END_STREAM and close, readers get, answer for answer, what one flat queue would have given them: copying DATA straight into a parked reader is invisible. |
| ReadTheorems.StepRefinesFifo | src/stream.cpp:13-40 | Each single callback or read half makes the flat queue's step and gives the flat queue's answer. |
| ReadTheorems.ReadsAreFaithful | src/stream.cpp:44-48 | In every reachable state received = returned ++ sink ++ queue, nghttp2 was told of exactly the bytes returned, and the backlog never exceeds the 1 MiB window. |
| ReadTheorems.NoReaderForgotten | src/stream_impl.hpp:199-221 | A suspended read that nobody has signalled has missed no byte, no END_STREAM and no close. |
| ReadTheorems.ParkingIsSafeExactly | src/stream_impl.hpp:146-151 | No run parks a read in front of buffered bytes if and only if the read brings room. |
| ReadTheorems.VerdictIsSound | src/stream_impl.hpp:172-177 | An end-of-body answer comes only after every received byte was returned; it is `eof` if and only if END_STREAM arrived, and `stream_truncated` only after a close. |
| ReadTheorems.VerdictIsComplete | src/stream_impl.hpp:172-218 | Once END_STREAM or close was seen and every byte returned, a read that begins, or resumes uncancelled, gives that answer instead of suspending. |
| ReadTheorems.VerdictIsFinal | src/stream_impl.hpp:213-220 | Whatever happens after an end-of-body answer, every later read gets the same one. |
| ReadTheorems.VerdictIsTimelyExactly | src/stream_impl.hpp:164-177 | No run gives a read its verdict early if and only if the read brings room. |
| ReadSide.DrainTakesPrefix | src/stream_impl.hpp:146-162 | Draining chunk by chunk takes exactly the front of the queued bytes that fits and leaves the rest, with only the front chunk partly taken. |
| ReadSide.DataAppends | src/stream.cpp:13-24 | However an arrival is split between a parked reader's buffers and a new chunk, it goes to the end of the backlog, and chunks queue up behind a reader only once its destination is full. |
| ReadSide.BeginReadTakes | src/stream_impl.hpp:134-177 | A read that starts serves the front of the backlog, or leaves it alone because there is no room or no byte. |
| ReadSide.ResumeReadTakes | src/stream_impl.hpp:203-220 | The same for a read that resumes: what its sink holds is the front of the backlog, and a cancellation never loses bytes already copied. |
| ReadSide.RunKeepsReadInv | src/stream_impl.hpp:338-363 | The read side's invariant holds in every state of every run. |
| WriteTheorems.WritesAreFaithful | src/stream_impl.hpp:291-321 | Under any mix of completion, close and cancellation, nghttp2 has pulled the concatenation of the counted prefixes of all finished writes, in order, plus the progress of the one in flight. |
| WriteTheorems.CutShortWritesResume | src/stream_impl.hpp:317-320 | A caller who always goes on where the reported counts say it got has sent a prefix of its body, no byte lost and none repeated, even across cancellations. |
| WriteTheorems.DeferralMirror | src/stream.cpp:57-62 | In every reachable state `write_deferred_` is true exactly while nghttp2 holds the provider deferred, never together with `write_pending_`, and `write_pending_` implies a suspended write. |
| WriteTheorems.CallbackReadsLiveBuffers | src/stream.cpp:64-69 | The callback reads only buffers whose owner is still suspended, and hands out the next bytes of that owner's request. |
| WriteTheorems.WriteCallIsExact | src/stream_impl.hpp:291-321 | For every write, plain or write_eof, and whatever happens between its call and its resumption: it waits until a cancellation, a close or enough pulls (the first, or for a write_eof room for all of it), not longer; it reports a cancellation if and only if there was one, else success, and as count exactly the bytes handed to nghttp2; EOF is raised if and only if it is a write_eof whose pulls had room for all of it. |
| WriteTheorems.RefusedExactly | src/stream_impl.hpp:295-296 | A write is refused with eof and count 0 if and only if the stream was closed before. |
| WriteTheorems.CloseEndsWriteWithoutError | src/stream.cpp:33-40 | A close can end a parked write_eof with success although no byte was pulled and no EOF raised. |
| WriteTheorems.EofRidesOnLastPiece | src/stream.cpp:77-92 | For every sequence of frame sizes the pieces of a write_eof concatenate to the front of its bytes as far as the sizes reach; only the last piece carries EOF, and exactly when everything went out. |
| WriteTheorems.NothingAfterEof | src/stream.cpp:80-81 | Once EOF is raised no later event pulls another byte. |
| WriteSide.PullMoves | src/stream.cpp:67-69 | A pull moves the next bytes of the request, as many as fit; offset and cursor remainder stay equal to the whole. |
| WriteSide.RunKeepsWriteInv | src/stream_impl.hpp:365-377 | The write side's invariant holds in every state of every run. |
| StatusSide.StatusIsExact | src/stream_impl.hpp:91-115 | Over every run: status() answers the last :status that arrived, at once if that was before the call; else it waits until a :status, a close or a cancellation comes, not longer; a cancelled call says so, and one still without a status reports eof or stream_truncated. |
| StatusSide.StatusCallHangsExactly | src/stream_impl.hpp:99-115 | A status() call waits for ever without cancellation if and only if the stream was already closed and no status had arrived. |
| StreamWorld.StepKeepsReachable | src/stream_impl.hpp:326-377 | A stream's state always comes from a run of its read side and a run of its write side, closed together. |
| SessionTheorems.NoLostWakeup | src/session.cpp:418-426 | With any number of streams, when send_loop waits unsignalled and no input is being parsed, nghttp2 has nothing to send and no stream that may send has a write waiting. |
| SessionTheorems.OutputIsByteExact | src/session.cpp:391-416 | The socket has a prefix of what nghttp2 produced, short by exactly what is held until an error; send_loop neither sleeps nor leaves in an orderly way with anything unwritten. |
| SessionTheorems.TableIsExact | src/session.cpp:491-512 | A stream is found under its id exactly until it is closed, and no report about an open stream is dropped. |
| SessionTheorems.SweepSignalsEveryone | src/session.cpp:346-358 | When run() ends the table is empty and every stream closed; no read and no write waits unsignalled on any stream, and no status call on one that was listed. |
| SessionTheorems.AfterTheEnd | src/session.cpp:346-358 | After run() has ended nothing arrives and nothing is pulled on any stream; on the closed ones no read or write ever waits, and each read, write or status wait lasts until it is itself cancelled. |
| SessionTheorems.OnlyLateRequestsStayOpen | src/session.cpp:621-633 | The streams still open after the end of run() are exactly those submitted after it. |
| SessionTheorems.StreamsKeepTheirPromises | src/session.cpp:218-233 | Inside any session run, each stream is in a state that a run of a single stream reaches, so everything proved of one stream holds of it. |
| SessionTheorems.ShutdownReachesSendLoop | src/session.cpp:463-464 | Once recv_loop has finished, the GOAWAY is queued or sent and send_loop never waits unsignalled again. |
| SessionProgress.SendLowersRank | src/session.cpp:380-426 | Every step of send_loop, in any state of the session, lowers the measure of remaining output. |
| SessionProgress.SendLoopCanStep | src/session.cpp:373-431 | send_loop is never stuck: unless it waits unsignalled or has left, a next step without error is possible. |
| SessionProgress.PendingWriteIsServed | src/session.cpp:472-477 | While a write waits on a stream that may send, every run of send_loop alone can go on and never finds nghttp2 dry, and only for a bounded number of steps, until it pulls from that stream, the stream is closed, or the connection window is used up. |
| SessionProgress.SubmissionIsServed | src/session.cpp:570-578 | After a response or a request that is not held back is submitted, every run of send_loop alone can go on and never finds nghttp2 dry, and only for a bounded number of steps, until the HEADERS are sent or the stream is closed. |
| SessionProgress.LoopsEndForCause | src/session.cpp:373-468 | Over every run: recv_loop has ended if and only if it was told to or parsing failed, exactly then the GOAWAY is queued or sent; send_loop failed if and only if nghttp2 or the socket failed, and left otherwise only when nghttp2 wanted nothing more or it was cancelled. |
| SessionProgress.ShutdownIsBounded | src/session.cpp:378-431 | In any run after recv_loop has finished, send_loop and nghttp2 inside it take no more steps than the output left at the start allows, plus a constant for each step of anyone else. |
| SessionProgress.ShutdownFinishes | src/session.cpp:439-468 | After recv_loop has finished, every run of send_loop alone on a working socket, whatever nghttp2 chooses to send, is bounded and goes on until send_loop leaves; then every byte nghttp2 handed over is written and, unless send_loop was cancelled, the GOAWAY is out and nghttp2 has nothing left. |
| SessionInvariant.RunKeepsSessionInv | src/session_impl.hpp:128-137 | The session's invariant (table, pump, wakeup, shutdown) holds in every state of every run with any number of streams. |
| SessionInvariant.UserKeepsWake | src/stream_impl.hpp:310-315 | Whatever user code starts or resumes, a sleeping send_loop is signalled whenever it may have created output. |
| SessionInvariant.RecvKeepsWake | src/session.cpp:449-464 | Whatever input creates as output, recv_loop signals send_loop before it suspends or ends. |
| SessionInvariant.ReportArrives | src/session.cpp:229-230 | A report about a stream nghttp2 considers open finds it in the table, not closed. |
| SendLoop.Pump | src/session.cpp:373-431 | For every script of nghttp2 answers, writes and waits: written ++ held = produced, and after a failed write the socket has exactly the front part of what was due that it took; the accumulator never overflows and is empty after every dry turn, the loop ends only for the reasons it should, and successful socket writes beyond one per dry spell carry more than the capacity each. |
| SendLoop.Iterate | src/session.cpp:378-427 | One iteration keeps all of that, and is one turn of the session model's pump. |
| SendLoop.FullWritesCarry | src/session.cpp:391-402 | Writes triggered by a fresh chunk account for capacity + 1 bytes each. |
| Compose.ComposedWriteIsExact | include/nghttp2-corosio/session.hpp:320-333 | At every moment of a composed write or write_eof of any buffer sequence, nghttp2 has pulled the reported bytes plus the call in flight; EOF is raised only after the last, if and only if nghttp2 pulls while the final empty write_eof is suspended; the call returns a cancellation if and only if there was one, else success if and only if every byte went out and the final write_eof was not refused, else the refusal of a closed stream. |
| Compose.NeverSpins | include/nghttp2-corosio/session.hpp:210-224 | The call takes at most three steps for each thing that happens to its stream. |
| Compose.ComposedWriteTerminatesExactly | include/nghttp2-corosio/session.hpp:210-224 | However nghttp2 sizes its frames, a composed write makes at most two write_some calls more than it has bytes, over all runs on all streams, if and only if every part of its sequence that has bytes left has one among its first 16 buffers. |
| Compose.GapIsUnbounded | include/nghttp2-corosio/session.hpp:210-224 | Otherwise there is a run with as many calls as one likes, on a stream that a submit and its HEADERS lead to. |
| Compose.UsuallyDense | src/stream_impl.hpp:284-293 | At most 16 buffers, or none of them empty, meets the condition. |
| Echo.EchoIsFaithful | echo_handler.cpp:28-45 | At every step of every run the response pulled is a prefix of the request received, and behind it by at most the 1 MiB window plus the 64 KiB buffer. |
| Echo.EchoIsComplete | echo_handler.cpp:28-51 | From the moment the handler has read a clean end of the request, response and request are equal, whatever becomes of the stream; EOF is raised if and only if nghttp2 pulls while the handler's final write_eof is suspended; a handler that succeeds saw such a pull, or a close, there. |
| Echo.StepKeeps | echo_handler.cpp:13-52 | Each step of the handler or of anything else keeps pulled ++ held = returned, at most one buffer held, and EOF last. |
| EchoTheorems.EchoEndsForCause | echo_handler.cpp:13-52 | The handler leaves its loop only for an error, and every error it meets or reports has its event in the run: END_STREAM, close, cancellation, or nghttp2's refusal; a cancelled write is never passed over. |
| EchoTheorems.CleanEchoIsWhole | echo_handler.cpp:28-51 | Without a cancellation, EOF on the response means that END_STREAM arrived and the response is the whole request; and a handler neither refused, cancelled nor closed under ends only in success, with EOF raised. |
| EchoTheorems.EchoNeverSpins | echo_handler.cpp:29-45 | The handler takes at most eight steps for each thing that happens to the stream. |
| EchoTheorems.EchoSubmitsOnTime | echo_handler.cpp:20-49 | The response is submitted before the first read if and only if asked for eagerly, else with the first chunk or at the end; never after a write began; once submitted, nghttp2 has it as long as the stream is open. |
| Impl.Stream.DrainInto | src/stream_impl.hpp:146-162 | The in-place draining loop puts exactly the drained bytes into the destination and leaves exactly the remaining queue. |
| Impl.Stream.ReadBegin | src/stream_impl.hpp:134-204 | read_some up to its await: fields, result, destination contents, and the session told of exactly the bytes returned. |
| Impl.Stream.ReadResume | src/stream_impl.hpp:203-221 | read_some after its await: the same, parking again with the same sink when there is nothing to report. |
| Impl.Stream.WriteBegin | src/stream_impl.hpp:291-315 | write_impl up to its await: the request's first 16 descriptors are pending, a deferred provider is resumed, send_loop poked; a closed stream refuses and touches nothing. |
| Impl.Stream.WriteResume | src/stream_impl.hpp:315-321 | write_impl after its await reports the offset reached, with the cancellation if there was one. |
| Impl.SessionImpl.SubmitRequest | src/session.cpp:583-634 | A wrong role or a refusal changes nothing; otherwise the new stream, in its initial state, gets its id, is listed under it, and send_loop is poked. |
| Impl.SessionImpl.CloseAll | src/session.cpp:357-358 | The table is emptied and every stream that was in it closed. |
| Headers.FromChars | src/session.cpp:154-157 | The longest front part made of digits, its value, and an error exactly if there is none or it does not fit. |
| Headers.ReadContentLength | src/session.cpp:152-162 | Accepts exactly the non-empty digit strings that fit size_t (section 8.6 of RFC 9110), with their value. |
| Headers.ReadStatus | src/session.cpp:141-148 | The value of the leading digits, or 0 if there are none or they do not fit. |
| Headers.NumeralIsUnique | src/session.cpp:560-611 | The text written for a number is the only numeral of it without a leading zero. |
| Headers.LengthRoundTrip | include/nghttp2-corosio/session.hpp:301-306 | Every size_t written as content-length is read back as itself. |
| Headers.PlainCapture | src/session.cpp:164-169 | Plain headers are captured one for one, in order, duplicates included; the parsed length is that of the last well-formed content-length. |
| Headers.AssembleResponse | src/session.cpp:560-565 | :status first, then the caller's headers in order, content-length last, numbers as canonical numerals. |
| Headers.AssembleRequest | src/session.cpp:597-616 | The four pseudo-headers with their values, content-length as a canonical numeral, then the caller's headers in order. |
| Headers.ResponseRoundTrip | include/nghttp2-corosio/session.hpp:289-306 | Capturing an assembled response gives back header list and the length set, whatever the headers say, and the status if and only if it fits an int. |
| Headers.RequestRoundTrip | src/session.cpp:605-616 | Capturing an assembled request gives back path and header list; the length is the one given if and only if no later header announces a different one. |
| TaskGroup.TaskGroup.Spawn | src/task_group.hpp:42-48 | Over nested spawns, including tasks that finish inside, the count keeps covering exactly the unfinished tasks, and each completion callback of either kind is accounted for. |
| TaskGroup.TaskGroup.Resume | src/task_group.hpp:46-47 | A normal or exceptional completion decrements a count of at least one, and each task completes once. |
| TaskGroup.TaskGroup.Poll | src/server.cpp:46-49 | Once stop was requested, driving the io_context, untracked handlers included, keeps the count exact, and any handler it ran is progress. |
| TaskGroup.TaskGroup.Drain | src/server.cpp:36-55 | The destructor's loop ends under every schedule, with the accept loop among its tasks, and then nothing tracked is left: each task ever spawned has run one completion callback, of its own kind. |
| TaskGroup.DrivingEndsExactly | src/server.cpp:46-90 | Driving any tasks ends under every schedule if and only if stop was requested or no accept loop is among them. |
| TaskGroup.AcceptEndsExactly | src/server.cpp:79-90 | accept_loop ends if and only if an accept fails after the stop request. |
| TaskGroup.TaskGroup.ResumeAccept | src/server.cpp:79-124 | accept_loop spawns a session for a connection and goes round, even after the stop request; an error ends it only after the stop request. |
| TaskGroup.RunningShrinks | src/task_group.hpp:40-51 | Once stop was requested, or without an accept loop in it, what a task leaves suspended is smaller than what it was, whatever it spawned. |

## Left out

- nghttp2's own frame encoding, HPACK and scheduling: represented only by the rules above; output chunks are arbitrary non-empty byte strings.
- Sockets, TLS, ALPN and connecting: foreign I/O; an accept is only its outcome.
- `recv_loop`, `run`, the composed writes and the echo handler are state machines on values, not loops over objects, because other code runs at each of their awaits; the update in place of the handler's buffer is not captured.
- The bytes behind a write's descriptors are values fixed when the write begins: a caller that changes its buffers under a suspended write is not modelled.
- A read's destination is one contiguous buffer, not a sequence of them.
- Object lifetime through `shared_ptr`, destruction of the session, and the copying of request fields into `Session::Request`.
- Two calls of the same kind at once on one stream, which the code does not support.
- TaskGroup.TaskGroup.Drain: sessions and handlers are finite once stop was requested, and so are the untracked handlers; that a coroutine heeds the stop request is its own and capy's part. Only accept_loop is modelled with its endless loop, without the TLS handshake between accept and spawn.
- `const_buffer_array` and `consuming_buffers` are taken to keep empty buffers; capy's code is not part of this model.
- The wakeup that session_impl.hpp:105-112 reports lost inside corosio's scheduler: a posted resumption is taken to be delivered.
- Logging, formatting, `run_io_context`, the two programs and the benchmarks: no stateful guarantee.
- The content-length the echo handler copies into its response.
- Timing: deadlines appear only as cancellations that may come at any wait.
