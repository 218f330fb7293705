# Buffers and hand-offs of the player core, in Dafny

A model of the buffering and thread hand-off machinery of the media player: its byte rings, the queue and
the pipeline built on them, the set/ack handshake and the command mailbox between threads, the buffer
protocol towards the OMX component, the OpenSL ES output ring, the bit reader and the metadata records.
`dafny verify dfyconfig.toml` checks everything.

Objects that the source updates in place are classes whose methods follow the C function step by step and
are proved against functions on values (`Store`, `Queue`, `Send`, `Units`, `Visited`, `Encode`, ...). Code that
runs on several threads is a transition system: a `State`, an `Action` for every atomic step (one critical
section, or one access to shared memory where there is no lock), `Enabled`, `Step`, and theorems about `Exec`
of every run, that is every interleaving. A critical section that is also a class method is proved equal to its
step of the transition system (`Abs() == Step(old(Abs()), ...)`).

Progress is stated without clocks, as bounds: a thing is done after so many steps of the thread whose turn it is,
whatever the others do in between. That thread can always take its step, and it stays its turn until it does, so
any scheduler that does not starve a thread for ever gets there.

| file | what it models |
|---|---|
| `Memory.dfy`, `Ring.dfy` | `memcpy`, 32-bit arithmetic, circular indices, queues in rings |
| `Cbe.dfy`, `CbeThreads.dfy`, `CbeAlone.dfy`, `CbeProgress.dfy` | the ring with a mirrored start: sequentially, with two threads, how the two fit, and what runs of the threads achieve |
| `Pipe.dfy`, `StreamQueue.dfy`, `Cb.dfy` | the checked rings and the queue of entries on top of one |
| `ThreadStates.dfy`, `ThreadProgress.dfy` | the handshake, and that a worker gets to the state it is asked for |
| `Pipeline.dfy`, `PipelineProgress.dfy`, `PipelineReturns.dfy` | the ARM/DSP decoder that flushes with it: safety, that frames come through, that calls return |
| `Mailbox.dfy`, `MailboxProgress.dfy`, `MailboxDestroy.dfy` | the single-slot command mailbox: safety, that commands are executed and waits end, and how a player ends |
| `OmxPorts.dfy`, `OmxOutputs.dfy`, `OmxInputs.dfy`, `OmxPortBuffers.dfy` | the OMX port buffer protocol: a port on values, runs of output and of input ports, and both in place |
| `OpenSles.dfy` | the OpenSL ES ring |
| `Escapes.dfy`, `BitStreams.dfy`, `Bits.dfy` | emulation prevention, streams of bits, and the bit reader |
| `Records.dfy`, `Metadata.dfy` | the record layout, and the buffer that grows |

## What turned out not to hold

For each: what fails, a lemma or method at an input where it does, and the exact condition for all inputs.

- Counts in cbe.c. The un-wrapped values that `write` and `read` take for a moment can give the other thread a
  wrong count. Input: `CbeThreads.StaleIndexMiscounts`. Exactly: all counts are right if and only if the indices
  they were taken from are no further apart than the ring's size allows (`CbeThreads.SafeOverRuns`). They are when
  an index is corrected before the other thread goes on (`CbeThreads.UninterruptedRunsCountRight`).
- Pauses. `thread_state_ask_pause` wakes nobody. Input: `ThreadStates.PauseStrandsController`. Exactly: it strands
  a waiting controller if and only if the worker is parked and the controller asleep, or EXIT was acknowledged
  (`ThreadStates.PauseStrandsIff`). Otherwise the call returns, but with IDLE, whatever it asked for
  (`ThreadStates.PausedReturnsIdle`). Without pauses every `thread_state_set` returns, unless EXIT was
  acknowledged (`ThreadStates.SetReturns`, `ThreadStates.SetHangsAfterExit`).
- Waiting for the mailbox. `async_cmd_wait` alone does not keep the worker quiet. Input: `Mailbox.UseOverlapsSeek`.
  Exactly: it does if and only if no command was pending (`Mailbox.WaitQuietsIff`), which close makes sure of and
  start, pause and seek do not.
- Destroying a player. It can leave a media open that nobody closes. Input: `MailboxDestroy.DestroyLeavesMedia`.
  Exactly: if and only if it finds no media, but an asynchronous open is pending or about to run
  (`MailboxDestroy.DestroyLeavesMediaIff`).
- Reconfiguring an OMX port. It strands buffers. Input: `OmxPorts.ReconfigureStrands`. Exactly: after any run, if
  and only if the last reconfiguration drained more than its cap (`OmxPorts.AgreeOverRuns`); they stay stranded
  until the next one (`OmxPorts.StrandedStays`).
- The error return of `video_dec_in` for a format without a header. It leaves the mutex locked, exactly when a
  header is still to be sent, the format is not WMV3, there is data and a buffer is free
  (`OmxPortBuffers.OmxPort.DecIn`). There is no input: only WMV3 asks for a header, so no caller gets there.
- The guard of the OpenSL ES ring. It is safe but not exactly tight. Input: `OpenSles.AdmitsRefusesTooMuch`.
  Exactly: it asks for the room that one byte more would need (`OpenSles.AdmitsIff`); see `OpenSles.TouchesFreeIff` and `OpenSles.QueuesFewIff` for what is needed, and
  `OpenSles.AdmitsTightIff` for the lengths at which the guard is just that.
- H.264 data. The bit reader does not count the byte after a skipped 03. Input: `Escapes.OverlapIsMissed`.
  Exactly: it removes the bytes that H.264 asks for if and only if it counts two zeros, modulo 256, before every
  escape (`Escapes.VisitedIsRbspIff`); for conforming data, if and only if 00 00 03 00 00 03 does not occur
  (`Escapes.ConformingIsRbspIff`).
- The index of `BITS_skip`. It falls behind. Input: `Bits.SkipThreeBytes`. Exactly: by 8 for every whole byte
  beyond the first (`Bits.BITS.Skip`), so it is right if and only if fewer than two whole bytes are skipped
  (`BitStreams.IndexRightIff`).
- Metadata. A buffer grows once by 1024 bytes. Input: `Metadata.LongStringOverruns`. Exactly: a record always fits
  if and only if it has at most 1024 bytes with its header (`Metadata.FitsAlwaysIff`).

## Model

| member | source | states |
|---|---|---|
| Ring.UsedOf | Source/cbe.c:78-85 | the unsigned difference of two indices, read as an int and corrected once, is their distance whenever they are at most size apart, un-wrapped values included |
| Ring.FreeOf | Source/cbe.c:87-94 | the same for the free count; indices that meet mean a ring that is all free |
| Ring.SkipDequeues | Source/cbe.c:128-137 | advancing the read index drops exactly the oldest bytes, also across the wrap |
| CbeBuffer.Cbe.New | Source/cbe.c:29-53 | a ring exists exactly when size, overlap and memory do, and starts empty |
| CbeBuffer.Cbe.constructor | Source/cbe.c:29-53 | an empty ring with a sound mirror |
| CbeBuffer.Cbe.Flush | Source/cbe.c:68-73 | empties the queue and keeps the mirror sound |
| CbeBuffer.Cbe.GetUsed | Source/cbe.c:78-85 | the used count is the length of the byte queue |
| CbeBuffer.Cbe.GetFree | Source/cbe.c:87-94 | the free count is the size minus that length, never 0 |
| CbeBuffer.Cbe.GetP | Source/cbe.c:104-107 | any run of queued bytes up to the rest size, read through a plain pointer, is the front of the queue, across the wrap too |
| CbeBuffer.Cbe.GetTailP | Source/cbe.c:109-116 | the last n queued bytes in one linear run, whenever they do not cross the end or the mirror covers the part that does (which n <= overlap implies) |
| CbeBuffer.Cbe.GetRestSize | Source/cbe.c:123-126 | a linear read of that many bytes ends exactly at the end of the memory |
| CbeBuffer.Cbe.Skip | Source/cbe.c:128-137 | drops min(count, used) bytes from the front of the queue |
| CbeBuffer.Cbe.SkipAll | Source/cbe.c:139-142 | empties the queue (one thread) |
| CbeBuffer.Cbe.CopyNowrap | Source/cbe.c:147-161 | the bytes are stored at the write index and, as far as the overlap reaches, again behind the end; nothing else changes |
| CbeBuffer.Cbe.Copy | Source/cbe.c:163-174 | the same for bytes that cross the end of the ring |
| CbeBuffer.Cbe.Write | Source/cbe.c:176-179 | the queue is extended by the bytes if and only if they are fewer than the free count; otherwise a whole ring of bytes is lost; the mirror stays sound |
| CbeBuffer.WriteQueues | Source/cbe.c:147-179 | exactly when a store and an index update are an append to the queue, for every memory and pair of indices |
| CbeBuffer.StoreWrappedMirrors | Source/cbe.c:147-174 | after any store every byte written so far below the overlap is repeated behind the end |
| CbeBuffer.LinearRead | Source/cbe.c:104-107 | with a sound mirror a linear read past the end equals the walk around the ring |
| CbeBuffer.TailRead | Source/cbe.c:109-116 | the same for the last bytes of the queue |
| CbeBuffer.Cbe.GetPatchP | Source/cbe.c:181-196 | where the next bytes would go and which part of the mirror is theirs |
| CbeBuffer.Cbe.Patch | Source/cbe.c:198-211 | copies the edited prefix to the mirror, and refuses a pointer outside the ring |
| CbeBuffer.PatchIsStore | Source/cbe.c:198-211 | a patch makes the memory what storing the edited bytes would have made it |
| CbeBuffer.EditAndPatch | Source/cbe.c:198-211 | editing in place and then patching is a store and restores the mirror |
| CbeBuffer.EditAndCopy | Source/cbe.c:181-196 | so is editing in place and copying the prefix by hand |
| CbeThreads.SafeOverRuns | Source/cbe.c:78-179 | one producer, one consumer, any interleaving of bytes and index updates: all counts are right if and only if all are in range, and then at every moment the linear window is the front of the queue, no store in progress touches it, and what was read is what was sent (what the calls of a run add up to is `CbeProgress.ConservedOverRuns`) |
| CbeThreads.CountRightIffInRange | Source/cbe.c:78-94 | in any state that the invariant allows, a count is right exactly when the two indices as they are, wrapped or not, lie in range |
| CbeThreads.UninterruptedRunsCountRight | Source/cbe.c:128-161 | if no step of the other thread falls between an increment and its correction, every count is right and every state safe |
| CbeThreads.StaleIndexMiscounts | Source/cbe.c:157-160 | a run in which the consumer counts bytes in an empty ring because of an un-wrapped write index |
| CbeThreads.StepKeepsInv | Source/cbe.c:78-179 | every single step of either thread, taken with counts in range, keeps the ring, its mirror and the chunk in progress consistent |
| CbeAlone.WriteAlone | Source/cbe.c:147-179 | the producer's single steps, uninterrupted, leave exactly the memory, index and queue that class Cbe's write leaves |
| CbeAlone.ChunkAlone | Source/cbe.c:147-161 | the same for one _cbe_copy_nowrap |
| CbeProgress.ConservedOverRuns | Source/cbe.c:78-179 | over any interleaving whose counts are in range: the bytes published and still to be published are together what all writes were given, in order, and the bytes skipped are what all skips asked for, each cut to the queue at its count |
| CbeProgress.SkipAlone | Source/cbe.c:128-137 | the single steps of a skip leave what class Cbe leaves: min(count, queued) bytes are skipped, whatever the other thread has in progress |
| CbeProgress.SkipDrops | Source/cbe.c:128-137 | which are the oldest bytes of the ring as class Cbe reads it |
| CbeProgress.QueueIsSent | Source/cbe.c:78-107 | between corrections the ring, read as class Cbe reads it, is what was sent and not yet skipped |
| CbeProgress.LookSees | Source/cbe.c:78-85 | a right count sees the whole queue |
| CbeProgress.ReadByteReads | Source/cbe.c:104-107 | each byte read while the producer stores is the next one of the queue |
| CbeProgress.WriteBeginsIff | Source/cbe.c:87-94 | a write begins exactly when its bytes are fewer than the space beside the queue |
| CbeProgress.WriteEnds | Source/cbe.c:147-179 | a write is over after a bounded number of steps of its thread among any of the other, each of which is possible, and has then published all its bytes |
| Pipe.PipeBuffer.GetUsed | Include/pipe.h:81-88 | the used count is the length of the queue and the difference of the running totals modulo 2^32 |
| Pipe.PipeBuffer.GetFree | Include/pipe.h:104-111 | the free count is the size minus that length |
| Pipe.PipeBuffer.ReadUnchecked | Include/pipe.h:138-157 | hands out and drops the front of the queue in order across the wrap; a null destination only drops |
| Pipe.PipeBuffer.Read | Include/pipe.h:159-165 | all or nothing |
| Pipe.PipeBuffer.WriteUnchecked | Include/pipe.h:189-209 | appends in order across the wrap; without a source what lies behind the queue becomes part of it |
| Pipe.PipeBuffer.Write | Include/pipe.h:211-217 | all or nothing, with a capacity of size - 1 |
| Pipe.TotalWriteMoves | Include/pipe.h:207 | the 32-bit totals stay as far apart as the pipe is full, through their overflow |
| Pipe.TotalReadMoves | Include/pipe.h:155 | the same for reads |
| Pipe.PipeBuffer.Flush | Include/pipe.h:42-49 | empties the pipe |
| Pipe.PipeBuffer.constructor | Include/pipe.h:51-67 | an empty pipe |
| Pipe.PipeBuffer.New | Include/pipe.h:51-67 | a pipe exists exactly when size and memory do, and starts empty |
| Pipe.PipeBuffer.Drop | Include/pipe.h:138-157 | the index and the total move together |
| Ring.PutEnqueues | Include/cb.h:210-228 | a store behind the queue, in one piece or two, appends to it and leaves it untouched |
| Ring.PutAppends | Include/cb.h:210-228 | the same for any run of cells, up to the whole ring |
| Ring.PutIsBlit | Include/cb.h:217-226 | storing behind a cell is one copy, or two at the end of the ring |
| Ring.CopyOut | Include/cb.h:157-175 | the two-piece copy out of the ring is the front of the queue |
| StreamQueue.StreamQ.Put | Source/stream_queue.c:72-86 | a bounded queue of whole entries: refused exactly for a null entry or when `length` are queued |
| StreamQueue.StreamQ.Get | Source/stream_queue.c:88-100 | the oldest entry, or refused with nothing changed exactly when there is none |
| StreamQueue.StreamQ.Flush | Source/stream_queue.c:125-133 | empties the queue |
| StreamQueue.StreamQ.constructor | Source/stream_queue.c:35-58 | an empty queue on a pipe of length + 1 entries |
| StreamQueue.StreamQ.New | Source/stream_queue.c:35-58 | a queue exists exactly when length, entry size and memory do, and starts empty |
| StreamQueue.RoomIff | Source/stream_queue.c:35-58 | a pipe of length + 1 entries takes another one exactly when fewer than length are queued |
| Cb.CircularBuffer.GetUsed | Include/cb.h:91-98 | the used count is the length of the queue |
| Cb.CircularBuffer.GetFree | Include/cb.h:114-126 | the free count is size - 1 minus that length |
| Cb.CircularBuffer.GetUsedContinuous | Include/cb.h:106-112 | the longest linear front of the queue: its bytes, and why it ends |
| Cb.CircularBuffer.GetFreeContinuous | Include/cb.h:128-147 | the longest linear run that may be written, never more than the free count |
| Cb.CircularBuffer.Read | Include/cb.h:157-175 | all or nothing, first in first out across the wrap, the rest of the destination untouched |
| Cb.CircularBuffer.Peek | Include/cb.h:177-186 | the byte at that place of the queue |
| Cb.CircularBuffer.SkipRead | Include/cb.h:188-200 | drops the front, or refuses |
| Cb.CircularBuffer.Write | Include/cb.h:210-228 | appends, or refuses exactly when fewer than count of size - 1 bytes are free |
| Cb.CircularBuffer.SkipWrite | Include/cb.h:230-242 | takes what lies behind the queue into it, or refuses |
| Cb.CircularBuffer.Flush | Include/cb.h:36-41 | empties the ring |
| Cb.CircularBuffer.constructor | Include/cb.h:43-57 | an empty ring |
| Cb.CircularBuffer.New | Include/cb.h:43-57 | a ring exists exactly when size and memory do, and starts empty |
| Cb.WriteInPlace | Include/cb.h:205-242 | storing at the write pointer within the linear free run and skipping over it is a write |
| ThreadStates.ThreadState.Set | Source/athread.c:224-242 | the first critical section of a request is the protocol's step: what is asked, that everybody is woken unless it is IDLE, and that the controller waits exactly if the worker has acknowledged something else |
| ThreadStates.ThreadState.SetAgain | Source/athread.c:236-238 | so is the section in which the controller wakes up: it waits again exactly if the states still differ |
| ThreadStates.ThreadState.Ack | Source/athread.c:249-261 | the acknowledgement is the worker's step: it takes the state, nobody sleeps afterwards, and it parks exactly when asked to idle |
| ThreadStates.ThreadState.AckAgain | Source/athread.c:256-258 | so is the section in which the worker wakes up: it parks again exactly when asked to idle |
| ThreadStates.ThreadState.constructor | Include/athread.h:75-82 | the state in which the protocol starts, with any number of controllers |
| ThreadStates.ThreadState.AskPause | Source/athread.c:263-269 | a request to idle is the protocol's step that leaves every thread as it was: nobody is woken |
| ThreadStates.NoWorkAfterIdle | Source/athread.c:224-261 | any number of controllers, any interleaving: from the return of a set(IDLE) that still stands until another state is asked for, the worker does no work |
| ThreadStates.QuietWhileIdle | Source/athread.c:249-261 | as long as nobody asks for another state an idle worker stays idle, through spurious wake-ups and pauses |
| ThreadStates.RankFalls | Source/athread.c:224-261 | while a lone controller waits the worker can step, every step of it brings the acknowledgement closer and no other step sets it back |
| ThreadStates.SetReturns | Source/athread.c:224-261 | after five worker steps in any order with anything else the call has returned, or is about to, with the state it asked for |
| ThreadStates.SetHangsAfterExit | Source/athread.c:224-242 | after EXIT was acknowledged a request for anything else never returns |
| ThreadStates.LoneControllerReaches | Source/athread.c:224-261 | every state a lone controller can reach meets what progress asks for |
| ThreadStates.PauseStrandsController | Source/athread.c:263-269 | a run with one ask_pause after which both threads sleep although the states agree |
| ThreadStates.PauseStrandsIff | Source/athread.c:263-269 | for every state of a lone waiting controller: after a pause no run lets it out, until another state is asked for or it wakes up for nothing, if and only if the worker is parked and the controller asleep, or EXIT was acknowledged |
| ThreadStates.PausedReturnsIdle | Source/athread.c:224-269 | otherwise any run with the at most four worker steps that are needed ends with the call returned, or about to, in state IDLE |
| ThreadStates.LeavingStep | Source/athread.c:249-261 | until then the worker can step, and every step of it comes closer |
| ThreadProgress.Arrives | Source/athread.c:224-261 | a worker that has not left its loop gets to the wanted state after at most eight steps of its own among any wake-ups: it works, is parked, or has left its loop |
| ThreadProgress.ArriveStep | Source/athread.c:249-261 | every step of it comes closer, and nothing but another request sets it back |
| ThreadProgress.WorkerCan | Source/athread.c:249-261 | and until then it can always take one |
| Pipeline.SafeOverRuns | Source/codec_ffmpeg_HD.c:79-370 | any interleaving of calls, flushes and the DSP thread: every context is in exactly one place, no queue overflows, a call takes at most one done job, frames come out in the order they went in and with their own metadata, at most n are outstanding between calls, and the queues are reset only while the DSP side holds no job (that frames do come out is `PipelineProgress.FrameComesThrough`) |
| Pipeline.TakeDoneTakes | Source/codec_ffmpeg_HD.c:302-325 | taking a done job moves its context from the front of the loop to its end, on the ARM side, and its frame, the oldest of the line, to the caller; the line stays as it is |
| Pipeline.PutFullLoop | Source/codec_ffmpeg_HD.c:336-343 | the context that was filled keeps its place in the loop |
| Pipeline.PutFullLine | Source/codec_ffmpeg_HD.c:340-370 | a decoded job joins the line of frames at its end with the metadata just decoded |
| Pipeline.DecodeDspLine | Source/codec_ffmpeg_HD.c:480-510 | decoding on the DSP side changes neither the order of the line nor any frame's metadata |
| Pipeline.ResetEnds | Source/codec_ffmpeg_HD.c:79-96 | at the end of a flush every context is back in the loop exactly once, in order, and no frame is inside |
| Pipeline.ResetRefills | Source/codec_ffmpeg_HD.c:79-96 | every step before: which queues are empty already and which contexts are back |
| Pipeline.DspKeepsReset | Source/codec_ffmpeg_HD.c:517-534 | while the queues are reset the DSP thread is outside dsp_worker and changes no queue, frame or metadata |
| PipelineProgress.FrameComesThrough | Source/codec_ffmpeg_HD.c:247-370 | every frame handed in comes through to the done queue, unless a flush is asked for, after a bounded number of steps of the DSP thread among any other steps |
| PipelineProgress.DspThroughStep | Source/codec_ffmpeg_HD.c:247-295 | until then the DSP thread can always step, and every step of it comes closer |
| PipelineProgress.DspTakes | Source/codec_ffmpeg_HD.c:275-283 | dsp_worker takes the oldest full job |
| PipelineProgress.DspDecodes | Source/codec_ffmpeg_HD.c:480-510 | gives its frame the metadata of its context, and no other frame any |
| PipelineProgress.DspPuts | Source/codec_ffmpeg_HD.c:288-294 | and puts it behind the done ones |
| PipelineProgress.SecondTry | Source/codec_ffmpeg_HD.c:275-283 | a job that arrives between the two attempts of a get is taken |
| PipelineProgress.RunGives | Source/codec_ffmpeg_HD.c:302-370 | between two flushes every call that finds a done job gives one frame back, and no other call does |
| PipelineProgress.GivenAreFirst | Source/codec_ffmpeg_HD.c:302-370 | the frames given back are the ones handed in first, in order and with their own metadata |
| PipelineProgress.DoneComesNext | Source/codec_ffmpeg_HD.c:302-325 | the done jobs hold the frames that come next, already with their metadata |
| PipelineProgress.DecodesHandIn | Source/codec_ffmpeg_HD.c:302-370 | the frames in the order of the pipeline are those of the calls, each with the metadata of its call |
| PipelineProgress.LiveOverRuns | Source/codec_ffmpeg_HD.c:79-370 | every reachable state satisfies what these results ask for; outside a flush the wanted and the acknowledged state are RUNNING |
| PipelineReturns.Returns | Source/codec_ffmpeg_HD.c:302-370 | every _decode and every _flush returns, after at most n + 22 steps of the side whose turn it is among any of the other |
| PipelineReturns.HelpPossible | Source/codec_ffmpeg_HD.c:302-343 | the side whose turn it is can always step: nobody waits for a context that no job holds |
| PipelineReturns.TurnStays | Source/codec_ffmpeg_HD.c:302-343 | and it stays its turn until it does |
| PipelineReturns.FlushEmpties | Source/codec_ffmpeg_HD.c:517-534 | when a flush has returned, and until the next call, no frame is inside and every context is in the empty queue |
| Mailbox.Async.Top | Source/avos_mp.c:380-396 | the critical section at the top of the loop is the worker's step: the completion it sends and its pending flag, then the whole command that was pending, or its going idle, which wakes the client |
| Mailbox.Async.TopAgain | Source/avos_mp.c:390-396 | so is the section in which the worker wakes up: it takes the whole pending command, argument included, or waits again with nothing changed exactly when none is pending |
| Mailbox.Async.Add | Source/avos_mp.c:445-453 | a new command overwrites the one in the slot and the worker is awake |
| Mailbox.Async.WaitBegin | Source/avos_mp.c:417-433 | the client's step: it waits exactly while an open or a seek runs, else goes on with its call; what is returned |
| Mailbox.Async.WaitAgain | Source/avos_mp.c:425-428 | so is the section in which the client wakes up; it returns only with the worker idle |
| Mailbox.Async.SeekAsync | Source/avos_mp.c:736-741 | an asynchronous seek is the client's step: it is pending with its argument, and the worker awake |
| Mailbox.Async.OpenAsync | Source/avos_mp.c:658-666 | so is an asynchronous open, refused when a media exists |
| Mailbox.Async.constructor | Source/avos_mp.c:455-469 | the state in which the protocol starts |
| Mailbox.Async.IsRunning | Source/avos_mp.c:435-443 | while a command runs the answer is 1; with 0 and nothing pending the worker is quiet |
| Mailbox.SafeOverRuns | Source/avos_mp.c:374-453 | any interleaving: the media is destroyed with no command running on it and none pending; executed seeks are a subsequence of the requested ones, each completed once before anything else is taken and with the right pending flag; a seek that runs has the argument of the last one executed, which is the last thing taken; a resting worker has executed the last seek asked for; nobody sleeps with something to do |
| Mailbox.QuietStays | Source/avos_mp.c:668-697 | once quiet, the worker stays quiet through any run that adds no command |
| Mailbox.WaitQuietsIff | Source/avos_mp.c:417-433 | after the wait the worker stays quiet until the next add exactly when no command is pending |
| Mailbox.UseOverlapsSeek | Source/avos_mp.c:699-741 | a run in which the client uses the media while the worker seeks in it |
| MailboxProgress.DueExecutes | Source/avos_mp.c:374-413 | a command that is pending or was just taken is executed as what it is, with the argument it was left with, after at most four steps of the worker, unless the client overwrites it |
| MailboxProgress.AskedIsDue | Source/avos_mp.c:445-453 | every asynchronous seek or open, and the EXIT of a destroy, is pending from then on |
| MailboxProgress.MediaChanges | Source/avos_mp.c:398-407 | a media appears exactly by an open that succeeds, and goes exactly by a close |
| MailboxProgress.CloseCloses | Source/avos_mp.c:668-697 | a close or a destroy that finds a media: as long as no open is asked for, it is either in progress or the media is gone |
| MailboxProgress.WaitEnds | Source/avos_mp.c:417-433 | every wait of the client, and every close, ends after at most ten steps of the thread whose turn it is among any of the other |
| MailboxProgress.HelpPossible | Source/avos_mp.c:374-433 | that thread can always step |
| MailboxProgress.TurnStays | Source/avos_mp.c:374-433 | and it stays its turn until it does |
| MailboxProgress.UseWaits | Source/avos_mp.c:699-734 | a start, a pause or a seek waits first |
| MailboxProgress.WaitLeads | Source/avos_mp.c:668-741 | a wait leads to the use of the media, a close to its end without a media, or on to the rest of the destroy |
| MailboxDestroy.DestroyEnds | Source/avos_mp.c:472-492 | a destroy ends whatever the worker was doing: the worker has left its loop and the client is past the join |
| MailboxDestroy.DestroyLeavesMediaIff | Source/avos_mp.c:472-492 | for every state in which destroy is called: some run of it leaves a media that nobody closes if and only if there is none yet and an open is pending or about to run |
| MailboxDestroy.DestroyLeavesMedia | Source/avos_mp.c:472-492 | a run that leaves one |
| OmxPorts.AgreeOverRuns | Source/codec_OMX.c:284-494 | every reachable state of an output port: counter, cap and states agree, the FIFO holds finished buffers once each, no buffer is with component and client at once, outputs leave in the order they were filled, the cap never falls; and outside a reconfiguration the FIFO holds all finished buffers if and only if the last reconfiguration drained at most its cap |
| OmxPorts.SendKeeps | Source/codec_OMX.c:284-304 | sending a ready buffer keeps all that, and which buffers are stranded |
| OmxPorts.GetDoneKeeps | Source/codec_OMX.c:306-317 | so does handing out the oldest finished one (`OmxOutputs.GetDoneMoves` says what is handed out) |
| OmxPorts.FillDoneKeeps | Source/codec_OMX.c:468-494 | so does a buffer that the component returns, whichever it is |
| OmxPorts.PutOutKeeps | Source/codec_OMX.c:1449-1514 | so does putting out a frame that the client holds |
| OmxPorts.PutOutFeeds | Source/codec_OMX.c:1490-1510 | after a frame was put out either no buffer is ready or the cap is reached, and of the other buffers only ready ones have moved, to the component |
| OmxPorts.ResendRestoresIff | Source/codec_OMX.c:762-770 | exactly min(drained, cap) buffers go back, and the port agrees again if and only if that is all of them |
| OmxPorts.ReconfigureRestoresIff | Source/codec_OMX.c:669-774 | the same for a whole reconfiguration without a reallocation, whose cap is then the larger of the old one and the count asked for |
| OmxPorts.ReconfigureStrands | Source/codec_OMX.c:669-774 | a run with two buffers and a cap of one after which the second is finished and in no queue |
| OmxPorts.StrandedStays | Source/codec_OMX.c:762-770 | the stranded buffers are the same ones until the next reconfiguration |
| OmxOutputs.FilledLeaveInOrder | Source/codec_OMX.c:306-494 | over any run without a reconfiguration what was finished before and what the component returns is, in that order, what is handed out and what is still in the FIFO |
| OmxOutputs.GetsDeliver | Source/codec_OMX.c:306-317 | the finished buffers come out in as many calls as there are, whatever comes between |
| OmxOutputs.OwnedNeverLeaves | Source/codec_OMX.c:306-317 | a buffer that the client has is not handed out before the client puts it |
| OmxOutputs.LeavesOnce | Source/codec_OMX.c:306-317 | between two times that a buffer is handed out the client puts it |
| OmxOutputs.GetDoneMoves | Source/codec_OMX.c:306-317 | taking a finished buffer moves the head of the FIFO to the client and changes no other buffer |
| OmxOutputs.FillDoneMoves | Source/codec_OMX.c:468-494 | a returned buffer goes from the component to the end of the FIFO, and no other buffer changes |
| OmxPortBuffers.OmxPort.SendLocked | Source/codec_OMX.c:284-304 | below the cap the buffer is with the component and counted; at the cap nothing changes |
| OmxPortBuffers.OmxPort.GetDoneLocked | Source/codec_OMX.c:306-317 | the oldest finished buffer leaves the FIFO and is the client's from then on, no other buffer changes; nothing changes when there is none |
| OmxPortBuffers.OmxPort.GetFreeLocked | Source/codec_OMX.c:329-344 | the first free buffer, or none exactly when there is none |
| OmxPortBuffers.OmxPort.EmptyBufferDone | Source/codec_OMX.c:441-466 | an input buffer comes back and is free, the counter is one less, no other buffer changes, and the port still agrees |
| OmxPortBuffers.OmxPort.FillBufferDone | Source/codec_OMX.c:468-494 | an output buffer comes back, finished, at the end of the FIFO, and the counter is one less |
| OmxPortBuffers.OmxPort.BufferFromFrame | Source/codec_OMX.c:273-282 | the first buffer with that frame, or none exactly when there is none |
| OmxPortBuffers.OmxPort.PutOut | Source/codec_OMX.c:1490-1510 | the loop does what feeding the port from its first buffer does; an unknown frame changes nothing |
| OmxPortBuffers.OmxPort.DrainFifo | Source/codec_OMX.c:356-368 | the FIFO is emptied and the states are left OMX_DONE |
| OmxPortBuffers.OmxPort.ReconfigureDrained | Source/codec_OMX.c:703-770 | the cap never falls, exactly min(drained, cap) buffers go back, none is stranded if and only if the drained ones fit |
| OmxInputs.FreeMeansRoom | Source/codec_OMX.c:1377-1417 | on the input port a free buffer means that the cap is not reached |
| OmxInputs.ReconfigureKeepsInput | Source/codec_OMX.c:669-774 | reconfiguring an input port keeps it one |
| OmxInputs.InputAgreesOverRuns | Source/codec_OMX.c:284-466 | every reachable state of an input port, whatever is sent, returned and reconfigured: the counter is the number of buffers sent, the cap never falls, and it is reached only when no buffer is free |
| OmxInputs.HeldOverRuns | Source/codec_OMX.c:284-466 | after any run of an input port the component holds exactly the buffers accepted and not returned since, and the counter counts them |
| OmxPortBuffers.OmxPort.SendPacket | Source/codec_OMX.c:1396-1417 | each pass of the loop really sends |
| OmxPortBuffers.OmxPort.DecPass | Source/codec_OMX.c:1379-1416 | one pass: a header if one is left, else the whole frame, or the error with nothing changed |
| OmxPortBuffers.OmxPort.DecIn | Source/codec_OMX.c:1377-1427 | a frame goes out whole and once or not at all, after the headers still to be sent, and is refused only when no buffer is free; the loop ends; the error return keeps the mutex locked; to the port the call is a run of that many sends |
| OpenSles.AudioCtx.Callback | Source/audio_interface_opensles.c:198-204 | the player has played the oldest queued unit, as it was written |
| OpenSles.AudioCtx.CanWrite | Source/audio_interface_opensles.c:360-370 | the guard: true if and only if a unit has bytes and there is room for one byte more than the length, for every length |
| OpenSles.TouchesFreeIff | Source/audio_interface_opensles.c:382-394 | a write reaches no queued slot, however full the current one is, if and only if there is room up to (len + unit - 2) / unit slots ahead |
| OpenSles.QueuesFewIff | Source/audio_interface_opensles.c:396-404 | at most 31 units are queued after it if and only if there is room for it, however full the current slot is: that is for (len + unit - 1) / unit units |
| OpenSles.AdmitsIff | Source/audio_interface_opensles.c:360-370 | exactly what the guard asks, for every length, whole units and none included: room for one byte more, however full the current slot is |
| OpenSles.AdmitsTightIff | Source/audio_interface_opensles.c:360-370 | the guard suffices for both for every length; it is exactly the first if and only if the remainder of the length is at least 2, and exactly the second if and only if it is at least 1 (or the length fits no ring) |
| OpenSles.AdmitsRefusesTooMuch | Source/audio_interface_opensles.c:360-370 | a length and a fill level that are refused although both would hold |
| OpenSles.AudioCtx.CopyIn | Source/audio_interface_opensles.c:382-394 | one pass of the first loop extends the stream and leaves every queued slot as it is |
| OpenSles.CopyStep | Source/audio_interface_opensles.c:382-394 | the same for memory alone: what is queued, what is left over and where, for every state of the ring |
| OpenSles.AudioCtx.Enqueue | Source/audio_interface_opensles.c:396-404 | one unit more is queued |
| OpenSles.AudioCtx.CopyAll | Source/audio_interface_opensles.c:382-394 | the first loop with callbacks anywhere in it |
| OpenSles.AudioCtx.CopyPass | Source/audio_interface_opensles.c:382-394 | one pass of it: the bytes taken, and that the guard still covers the rest |
| OpenSles.AudioCtx.EnqueueAll | Source/audio_interface_opensles.c:396-404 | the second loop: every complete unit is queued, at most 31 in all |
| OpenSles.AudioCtx.Write | Source/audio_interface_opensles.c:372-409 | an admitted write, whatever callbacks intervene, appends its bytes to the stream whose units are queued or played in order; between writes less than a unit is left over and both indices meet |
| OpenSles.AudioCtx.constructor | Source/audio_interface_opensles.c:306-318 | an output on which nothing has been written |
| OpenSles.UnitsFlatten | Source/audio_interface_opensles.c:382-404 | the units and the part left over are all bytes ever written, in order, so how they were split into writes does not matter |
| OpenSles.UnitsAppend | Source/audio_interface_opensles.c:382-394 | bytes that fill the current slot complete one unit, fewer complete none |
| OpenSles.CopyKeepsHeld | Source/audio_interface_opensles.c:388 | a copy into the slot after the newest unit leaves up to 31 queued ones untouched |
| OpenSles.UnitsOfWrite | Source/audio_interface_opensles.c:365-369 | a write completes or touches at most one unit more than its length divides into |
| OpenSles.AudioCtx.Preload | Source/audio_interface_opensles.c:435-460 | whatever was written before, the stream is then 31 silent units, all queued, and until one is played no write is admitted |
| OpenSles.AudioCtx.Flush | Source/audio_interface_opensles.c:418-427 | between two units a flush drops what is queued and starts over |
| Escapes.VisitedIsRbspIff | Source/bits.c:49-71 | for all data: the bytes the reader visits are the standard's (section 7.3.1 of ITU-T H.264) if and only if it counts two zeros modulo 256 before every escape |
| Escapes.VisitedAgrees | Source/bits.c:58-68 | the same from any byte at which the reader has missed nothing |
| Escapes.ConformingIsRbspIff | Source/bits.c:49-71 | for data without 00 00 00 (section 7.4.1): if and only if 00 00 03 00 00 03 does not occur |
| Escapes.OverlapIsMissed | Source/bits.c:62-67 | seven conforming bytes on which they differ |
| Escapes.VisitedNoShorter | Source/bits.c:58-68 | the reader never drops a byte that is not an escape |
| Escapes.ConformingRecognisedIff | Source/bits.c:49-71 | conforming data without 00 00 03 00 00 03 is exactly the conforming data of which the reader recognises every escape |
| Escapes.VisitedPrefix | Source/bits.c:49-71 | what follows in memory does not change the bytes visited before |
| BitStreams.NalDelivered | Source/bits.c:49-71 | for a NAL unit in memory with anything behind it: what the reader delivers begins with its RBSP, all of which can be read to the end |
| Bits.GetFromNal | Source/bits.c:49-79 | and any run of reads within it returns the unsigned ints that the bits of the RBSP spell, the last one included |
| Bits.BITS.Init | Source/bits.c:20-28 | a plain reader at the first bit |
| Bits.BITS.InitH264 | Source/bits.c:30-39 | a reader that has counted the first byte if it is zero |
| Bits.BITS.Get1 | Source/bits.c:49-71 | bit i of the bytes the mode delivers, for the i-th call |
| Bits.BITS.StepByte | Source/bits.c:55-69 | going on to the next byte loses and repeats nothing of what the mode delivers |
| Bits.BITS.Advance | Source/bits.c:52-70 | one bit on, in the same byte or the next |
| Bits.BITS.Get | Source/bits.c:73-79 | the next count bits of what the mode delivers as an unsigned int: bit i of it is the i-th last of them |
| BitStreams.ValueSpells | Source/bits.c:73-79 | bit i of the number, counted from the least significant one, is the i-th last bit read, for the 32 that an unsigned int keeps; up to 32 bits there are no others |
| Bits.BITS.Skip | Source/bits.c:81-109 | in plain mode it reaches the byte and bit that as many single reads reach; by how much the index goes wrong |
| Bits.BITS.SkipLead | Source/bits.c:83-95 | the first loop stops at a byte boundary or at the end |
| Bits.BITS.SkipBit | Source/bits.c:83-91 | one bit forward in memory |
| Bits.BITS.Peek1 | Source/bits.c:111-114 | the bit that would be read next |
| Bits.BITS.Poke1 | Source/bits.c:116-123 | sets the bit at the cursor and no other, and a plain reader has lost nothing |
| BitStreams.MaskSelects | Source/bits.c:51-54 | the halved masks select the bits of a byte from the top |
| BitStreams.IndexRightIff | Source/bits.c:93-98 | the index is right exactly when fewer than two whole bytes are skipped |
| BitStreams.LeadIs | Source/bits.c:83-91 | the first loop takes the bits before the next byte boundary, or all of them if they do not reach it |
| BitStreams.IndexLagIs | Source/bits.c:81-109 | what the index counts of a skip: the bits before the boundary, 8 if there is any whole byte, the bits after the last |
| Bits.SkipThreeBytes | Source/bits.c:81-109 | three bytes skipped at once: bit 24, index 8 |
| Metadata.MetadataBuffer.constructor | Source/avos_common.c:282-285 | an empty buffer |
| Metadata.MetadataBuffer.Realloc | Source/avos_common.c:113-125 | what fits the memory there is needs no allocation and changes nothing; else it grows once by 1024 and keeps the records, or loses them all when memory runs out |
| Metadata.FitsAlwaysIff | Source/avos_common.c:113-125 | every buffer takes a record exactly when header and payload are at most 1024 bytes |
| Metadata.LongStringOverruns | Source/avos_common.c:113-155 | a string of 1012 characters does not fit a new buffer |
| Metadata.MetadataBuffer.Write | Source/avos_common.c:127-139 | a record that fits is appended to the list of records |
| Metadata.MetadataBuffer.Store | Source/avos_common.c:131-136 | the stores of a write are the record, and nothing else |
| Metadata.MetadataBuffer.Append | Source/avos_common.c:141-157 | one record per value, none for an empty string or a null pointer |
| Metadata.MetadataBuffer.WriteBegin | Source/avos_common.c:159-163 | forgets all records |
| Metadata.MetadataBuffer.ReadBegin | Source/avos_common.c:170-174 | back to the first record |
| Metadata.MetadataBuffer.Get | Source/avos_common.c:181-195 | the first record with that id, or null exactly when there is none |
| Metadata.MetadataBuffer.ReadNext | Source/avos_common.c:197-204 | the next record, or null exactly at the end |
| Metadata.MetadataBuffer.Dup | Source/avos_common.c:250-270 | a buffer with memory of its own and the same records |
| Metadata.ReadAll | Source/avos_common.c:170-204 | reading to the end yields exactly the records, in order |
| Metadata.WriteThenRead | Source/avos_common.c:127-204 | any list of appends of at most 1024 bytes, with growth in between, fails exactly when an append that needs memory does not get it, and then all is lost; else it reads back as the same values, the empty strings left out |
| Metadata.GrantedSurvives | Source/avos_common.c:113-125 | it never fails when every allocation succeeds |
| Metadata.RoomySurvives | Source/avos_common.c:113-125 | nor when everything fits the memory there is, whatever allocations would do |
| Metadata.EntriesBack | Source/avos_common.c:141-157 | decoding the records of any list of values gives the values back |
| Records.EntryRoundTrip | public/avos_common.h:64-73 | each kind of value survives its record |
| Records.RecordLayout | public/avos_common.h:64-73 | the type number of each kind of value and the size of its payload |
| Records.EncodeOneReads | public/avos_common.h:28-33 | the three header fields and the payload of a record read back from memory |
| Records.RecordHere | public/avos_common.h:28-33 | in a buffer of records, record k starts where the sizes before it say, inside what was written, and its fields read back |

## Left out

- OMX, OpenSL ES, libav, JNI and pthread calls are environment steps or assumed primitives; their error returns are not modelled.
- Memory accesses are sequentially consistent; torn or reordered index updates in cbe.c are not modelled.
- The single-slot OMX command and event wait for two ports at once, and `video_get_out`'s waiting; taking a finished buffer is `GetDoneLocked`.
- Reconfiguring an OMX port with a reallocation of its buffers, and the flush of a port.
- Pixel copies, frame locking and the choice of frames in the pipeline: a caller does not hand in a frame that is still outstanding. The decoder without threads.
- The ARM/DSP pipeline uses its queues as bounded lists; `StreamQueue` proves that the queue behaves like one. `stream_q_get_wait` is two attempts in the pipeline and has no clock.
- Timed waits of pipe.h, whose used count may be stale at the end of the stream.
- The early return of avos_mp_close when the media's abort fails, after which the media is never closed, and the synchronous avos_mp_open.
- More than one client thread of the mailbox.
- OpenSles.AudioCtx.Preload: only with no unit partly filled, because the source does not reset the partly filled slot when it flushes; nor are stop and a change of parameters modelled.
- In the OpenSL ES output enqueue and its counter are one step; the unit counters are unbounded where the source's wrap at 2^32.
- Bits.BITS.Skip: in h264 mode the source skips without removing escapes; only where the cursor goes is stated there.
- Bits.BITS.InitH264: reads the first byte, and the last bit of a byte needs the byte after it to be readable, as in the source.
- CbeBuffer.Cbe.SkipAll: sequential only; with two threads it can copy a transient write index.
- CbeBuffer.Cbe.Write: a count larger than the ring is not modelled; the source then stores out of the memory.
- Metadata record types other than the four that are appended, file descriptor transfer, and the hash field.
- Tables, logging, debug commands, paths, images, sockets and signals.
