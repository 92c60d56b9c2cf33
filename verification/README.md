# uStreamer and TinyPilot: verified models

This project models the hard parts of TinyPilot's video path, the C program uStreamer with
its Janus plugin, and one state machine of the web client, and proves properties of them
that hold for every input, every interleaving or every run.

Check it with `dafny verify dfyconfig.toml` (Dafny 4.11).

| file | models |
|---|---|
| `Session.dfy` | one capture session: main loop, JPEG, RAW and H264 threads, encoder jobs and releasers as a state machine whose actions are single shared-memory accesses |
| `Runs.dfy` | which runs of a session exist, on a device that serves its queue first in, first out |
| `Delivery.dfy`, `Latest.dfy`, `Encoders.dfy` | what the main loop hands to whom over a run, `_get_latest_hw` inside a session (who drops frames and what a call returns), and when the buffer of an encoder job is given up |
| `Grab.dfy` | the grab loop against a script of device answers |
| `Queue.dfy`, `Ring.dfy` | the bounded queue, `_get_latest_hw`, and the ring made of two queues |
| `Workers.dfy`, `Answers.dfy`, `Order.dfy`, `Scan.dfy` | the encoder pool as a state machine, what its workers answered and what is exposed of it, in which order, and its scan on the linked worker list |
| `List.dfy` | the intrusive doubly linked list |
| `Rtp.dfy` | Annex B splitting, RTP headers, single-NAL and FU-A packets, with a reader for each |
| `Path.dfy` | the in-place request-path normaliser, for every path, against a component stack |
| `Ids.dfy`, `Frame.dfy`, `Memsink.dfy`, `KeyFrames.dfy` | frame ids, frames, the shared-memory sink with one server and many clients, and key-frame requests through it |
| `Base64.dfy`, `FrameText.dfy` | the Base64 encoder, and text drawing with its cache |
| `Expose.dfy`, `Janus.dfy`, `Mouse.dfy` | frame exposure and stream clients, plugin sessions, the rate-limited mouse |
| `Common.dfy` | options and counting lemmas |

Concurrent code is a state machine: a datatype of states, a datatype of actions, one
action per access to shared memory, an invariant proved for every action, and theorems over
every run. Code that works in place is a method on arrays, linked nodes or object fields
whose contract equates the new state with a function of the old one; what the program
promises is then proved of that function. Bytes in formats are integers; separate lemmas on
bit vectors show that the shifts and masks of the code compute the same numbers.

## What turned out different from the comments and names in the code

* `us_queue_is_empty` tells whether the queue is *not full* (`Queues.Queue.IsEmpty`). Hence
  `_get_latest_hw`, whose comment promises the freshest frame, lets go of a frame only at a
  look that finds the queue full (`Queues.DropsWhenFull`), and returns the newest one exactly
  when the queue has a single slot, or held a single frame and nothing arrived before the
  first look (`Queues.NewestIff`). In a session the JPEG and H264 queues are never full at a
  look, so only the RAW thread ever drops a frame there (`LatestInRuns.OnlyRawDrops`); the
  other two work through every frame, oldest first.
* A put refused by the two-slot RAW queue leaves its reference behind, and the buffer never
  returns to the device in that session. This can happen exactly when there is a RAW sink
  and at least three buffers (`CaptureRuns.LeakIff`, `CaptureSession.RefusedBufferIsLost`).
* The releaser clears the `grabbed` flag after QBUF, so the main loop can dequeue the buffer
  in between and end the session with "already used". That is the only way to get the error
  (`CaptureSession.AlreadyUsedIffClearing`), it needs no device fault
  (`CaptureRuns.RaceRun`), and it can happen in every session with a buffer and a worker,
  whatever the sinks (`CaptureRuns.RaceIff`).
* A key-frame request survives frames that cannot be decoded, but the encode after a failed
  compression is not forced, because the flag is cleared before the compressor is called.
  `KeyFrameRequests.ForcedIff` gives the exact condition,
  `KeyFrameRequests.FailedCompressionForgets` the failing family and
  `KeyFrameRequests.ForgottenRequest` a run; the request itself stays in the sink
  (`KeyFrameRequests.RequestStays`).
* The path normaliser treats a one-letter first component of a relative path like an empty
  one, and a final `..` that removes the first component leaves its first letter. These are
  the only paths on which it does not compute the normal form (`RequestPath.NormalIff`).
* Keeping the proportions of drawn text rounds the horizontal scale beside a vertical scale of 1
  down to 0, so a text whose lines fit at that scale only is not drawn at all
  (`FrameText.DrawnIff`).
* The timeliness test compares start times, not frames: with two workers or more JPEGs can be
  exposed out of the order of their frames (`ExposureOrder.DisorderIff`), exactly when the
  workers started on them in another order (`ExposureOrder.InOrderIff`).
* The timeliness test compares with 0 at first, so a JPEG job that started at clock reading 0
  would never be exposed (`WorkersPool.ExposedInOrder`).
* `_http_send_stream` clears `need_first_frame` before it reads it again, so the first write to a
  client does not count as an update for it; `Exposure.WritesExactly` states the resulting rule.

## Model

| member | source | states |
|---|---|---|
| CaptureSession.InitInv | images/ustreamer/src/ustreamer/stream.c:162-191 | when a session is opened every buffer is with the device, all queues are empty and the session invariant holds |
| CaptureSession.StepInv | images/ustreamer/src/ustreamer/stream.c:200-429 | every shared-memory access of every thread (grab, fan-out, consumers, encoder pool, releasers) keeps the invariant: one owner per buffer, at most one token per consumer, exact reference count, releaser order, flag discipline |
| CaptureSession.RunInv | images/ustreamer/src/ustreamer/stream.c:200-429 | the invariant holds in every state of every interleaving |
| CaptureSession.DeviceOwnsAlone | images/ustreamer/src/ustreamer/stream.c:280-429 | over every run: a buffer owned by the device has refs 0, is in no queue, held by no thread and by no encoder job |
| CaptureSession.RefCount | images/ustreamer/src/libs/capture.c:470-476 | over every run: refs is exactly queued copies + threads holding it + encoder jobs + refused RAW puts + the put in flight, and no consumer has a buffer twice |
| CaptureSession.NoAssertFails | images/ustreamer/src/libs/capture.c:457-458 | over every run: the refs == 0 assertion of release, the unchecked puts into the JPEG, H264 and one-slot releaser queues and the asserted get in _get_latest_hw never fail |
| CaptureSession.RoomForPut | images/ustreamer/src/ustreamer/stream.c:214-220 | a buffer about to be put is not in that queue yet, so fewer than n_bufs entries are queued |
| CaptureSession.PutTokens | images/ustreamer/src/ustreamer/stream.c:214-217 | a put adds exactly one reference token of its buffer to its own consumer, whether it is queued or refused |
| CaptureSession.ThreadTokens | images/ustreamer/src/ustreamer/stream.c:495-505 | a consumer step gives up exactly one token when it drops or finishes a buffer and none otherwise |
| CaptureSession.PoolTokens | images/ustreamer/src/ustreamer/stream.c:318-337 | collecting a finished worker gives up exactly the token of its job; assigning moves the token from the thread to the job |
| CaptureSession.AlreadyUsedIffClearing | images/ustreamer/src/libs/capture.c:390-394 | over every run the "already used" error is raised if and only if the releaser of that buffer is between its QBUF and its store to the grabbed flag |
| CaptureRuns.RaceRun | images/ustreamer/src/libs/capture.c:461-465 | for any sinks, with a buffer and a worker: a run whose last step raises that error, without a broken frame or a failing ioctl and with every buffer dequeued in the order of queueing |
| CaptureRuns.RaceIff | images/ustreamer/src/libs/capture.c:390-394 | some run raises the error if and only if there is at least one buffer and one encoder worker; and then one does on a device without faults that serves its queue first in, first out |
| CaptureRuns.RunStuck | images/ustreamer/src/ustreamer/stream.c:318-319 | without workers every buffer that was fanned out stays in the JPEG queue, and no releaser ever gets to QBUF |
| CaptureSession.RefusedStays | images/ustreamer/src/ustreamer/stream.c:190-219 | a refused RAW put is never forgotten: the refused references only grow along a run |
| CaptureSession.RefusedBufferIsLost | images/ustreamer/src/ustreamer/stream.c:214-217 | after a refused RAW put the buffer keeps a reference and is never with the device again in that session |
| CaptureRuns.LeakIff | images/ustreamer/src/ustreamer/stream.c:189-191 | some run has a refused RAW put if and only if there is a RAW sink and n_bufs is at least 3; and then one has on a device without faults that serves its queue first in, first out |
| CaptureRuns.RefusalRun | images/ustreamer/src/ustreamer/stream.c:200-225 | the witness: three frames while the RAW thread is not scheduled |
| Delivery.HandsOutLast | images/ustreamer/src/libs/capture.c:363-438 | over every run: the buffer that is fanned out is the one dequeued last among those found intact since the previous one was |
| Delivery.OfferedToAll | images/ustreamer/src/ustreamer/stream.c:214-225 | over every run: when a buffer is planned for release it has been put exactly once for every consumer the session has, and for no other |
| LatestInRuns.OnlyRawDrops | images/ustreamer/src/ustreamer/stream.c:495-505 | over every run: the JPEG and H264 threads never let a frame go, because their queue cannot be full while they hold one; only the RAW thread drops |
| LatestInRuns.CallIsSettle | images/ustreamer/src/ustreamer/stream.c:495-505 | over every run and for every interleaving inside one call of a consumer: what it returns, drops and leaves queued is what Queues.Settle gives for the puts made in between |
| EncoderJobs.EncodedBeforeGivenUp | images/ustreamer/src/ustreamer/stream.c:318-337 | over every run: the buffer of a job that is given up had been assigned to that worker by the JPEG thread, and the worker has answered since |
| Grabbing.Capture.Round | images/ustreamer/src/libs/capture.c:379-425 | fails exactly when the device does, the buffer is out of range or flagged, or one has to go back and cannot; otherwise exactly the held buffer is away from the device, and after a failure the dequeued one is too |
| Grabbing.Capture.Grab | images/ustreamer/src/libs/capture.c:363-438 | for every device script and lagging flags: success takes exactly one buffer, NO_DATA takes none, a failure loses at most two; it fails exactly when a round does or nothing was there, else returns the last intact buffer, or NO_DATA when all were broken |
| Grabbing.CleanWorks | images/ustreamer/src/libs/capture.c:379-425 | a device whose answers are existing buffers that are not flagged and not the one in hand, and whose ioctls succeed, never makes the grab fail, however many frames are broken |
| Queues.Queue.Put | images/ustreamer/src/libs/queue.c:74-91 | refused exactly when full, otherwise the contents grow by the item at the end |
| Queues.Queue.Get | images/ustreamer/src/libs/queue.c:93-103 | fails exactly when empty, otherwise removes and returns the oldest item |
| Queues.Queue.IsEmpty | images/ustreamer/src/libs/queue.c:107-112 | true exactly when the queue is not full; and exactly when that coincides with emptiness |
| Queues.WindowPut | images/ustreamer/src/libs/queue.c:84-87 | in the circular array, writing at "in" appends to the window of queued items |
| Queues.WindowGet | images/ustreamer/src/libs/queue.c:96-99 | in the circular array, moving "out" removes the first item of the window |
| Queues.GetLatest | images/ustreamer/src/ustreamer/stream.c:495-505 | for any batches of puts between its steps, returns, drops and leaves queued what the loop on values does; fails exactly when the queue is empty |
| Queues.DropsWhenFull | images/ustreamer/src/ustreamer/stream.c:500-503 | the k-th look lets go of the item exactly when the queue is full there |
| Queues.DropCount | images/ustreamer/src/ustreamer/stream.c:500-503 | how many items are let go, in closed form: none unless the first batch fills the queue, then one more while anything arrives between two looks |
| Queues.Conserved | images/ustreamer/src/ustreamer/stream.c:495-505 | what was queued and what was accepted is, in order, what was dropped, the returned item and what stays queued |
| Queues.NewestIff | images/ustreamer/src/ustreamer/stream.c:495-505 | the returned item is the newest one if and only if the queue has a single slot, or held a single item and nothing arrived before the first look |
| Queues.StaleExamples | images/ustreamer/src/ustreamer/stream.c:500-503 | two queues for which an older item is returned, with and without an arrival |
| Rings.Ring.constructor | images/ustreamer/src/libs/ring.c:36-49 | every slot below the capacity starts in the producer queue |
| Rings.Ring.ProducerAcquire | images/ustreamer/src/libs/ring.c:59-82 | gives the first free slot, which no queue and no other holder has, or -1 exactly when there is none; the partition of the slots is kept |
| Rings.Ring.ProducerRelease | images/ustreamer/src/libs/ring.c:63-86 | moves a held slot behind the filled ones; the asserted put cannot fail |
| Rings.Ring.ConsumerAcquire | images/ustreamer/src/libs/ring.c:67-82 | gives the slots in the order in which the producers released them, each to one holder |
| Rings.Ring.ConsumerRelease | images/ustreamer/src/libs/ring.c:71-86 | moves a held slot behind the free ones; the asserted put cannot fail |
| Rings.PartitionFacts | images/ustreamer/src/libs/ring.c:36-49 | every slot is in exactly one of the four places, and their sizes add up to the capacity |
| Rings.AcquireKeeps | images/ustreamer/src/libs/ring.c:75-82 | taking the head of a queue keeps the partition and yields a slot that is nowhere else |
| Rings.ReleaseKeeps | images/ustreamer/src/libs/ring.c:84-86 | giving a held slot back keeps the partition, and the target queue has room for it |
| WorkersPool.StepInv | images/ustreamer/src/ustreamer/workers.c:109-187 | every step of dispatcher and workers keeps the pool invariant |
| WorkersPool.RunInv | images/ustreamer/src/ustreamer/workers.c:109-187 | the pool invariant holds in every state of every interleaving before stop |
| WorkersPool.CounterExact | images/ustreamer/src/ustreamer/workers.c:109-140 | over every run: free_workers + jobs in hand + pending give-backs is n (plus one only inside assign), the counter is never negative, and a finished scan has found a worker |
| WorkersPool.IdleExists | images/ustreamer/src/ustreamer/workers.c:114-120 | if the loads are below the number of workers, some worker is idle |
| WorkersPool.ExposedInOrder | images/ustreamer/src/ustreamer/stream.c:318-337 | over every run: start times of exposed jobs strictly increase, each job is exposed at most once, and a collected success is exposed exactly when it started after clock reading 0 and after every success collected before it |
| ExposureOrder.InOrderIff | images/ustreamer/src/ustreamer/stream.c:326-337 | over every run: JPEGs are exposed in the order of their assignment if and only if the exposed jobs started in that order |
| ExposureOrder.DisorderIff | images/ustreamer/src/ustreamer/workers.c:124-127 | some run exposes JPEGs out of the order of their assignment if and only if there are at least two workers |
| ExposureOrder.DisorderRun | images/ustreamer/src/ustreamer/workers.c:169-181 | the witness for any such pool: the worker with the later job wakes up first |
| WorkersPool.RecordsIncrease | images/ustreamer/src/ustreamer/workers.c:124-127 | the jobs that pass the timeliness test have strictly increasing start times |
| WorkersPool.RecordsExact | images/ustreamer/src/ustreamer/workers.c:124-127 | a success passes the timeliness test exactly when it started after 0 and after every success collected before it |
| WorkersPool.JobsConserved | images/ustreamer/src/ustreamer/stream.c:318-366 | every assigned job is either at exactly one worker or was collected exactly once |
| Answers.CollectedAsAnswered | images/ustreamer/src/ustreamer/workers.c:162-181 | over every run: each collected job was woken up for and answered by a worker that had it; it is collected as failed or not exactly as answered, and a success carries the clock reading of that wake-up |
| Answers.ExposedSucceeded | images/ustreamer/src/ustreamer/stream.c:324-331 | over every run: a worker answered success for each exposed job, running since the exposed start time |
| WorkersPool.MoveToEndOk | images/ustreamer/src/ustreamer/workers.c:121-122 | moving the found worker to the end keeps the list a permutation of the workers |
| WorkerScan.Pool.Find | images/ustreamer/src/ustreamer/workers.c:114-119 | the walk over the linked list finds the idle worker with the latest start, the last such in the list; nothing only when all are busy |
| WorkerScan.Pool.Wait | images/ustreamer/src/ustreamer/workers.c:114-128 | the found node is moved to the end, the other nodes keep their order, and job_timely_ts becomes the maximum |
| WorkerScan.ScannedPicks | images/ustreamer/src/ustreamer/workers.c:114-119 | the scan of the state machine, undisturbed, makes the same choice as the walk over the list |
| LinkedLists.List.Append | images/ustreamer/src/libs/list.h:40-50 | the doubly linked list stays well formed and grows by the node at the end |
| LinkedLists.List.Remove | images/ustreamer/src/libs/list.h:57-70 | the list stays well formed and loses exactly that node, whose links are cleared |
| LinkedLists.List.NextIs | images/ustreamer/src/libs/list.h:32-38 | the next pointer of a node leads to its successor or is NULL at the end |
| RtpVideo.HeaderRoundTrip | images/ustreamer/janus/src/rtp.c:50-65 | a reader of the RTP header (section 5.1 of RFC 3550) finds in every datagram the version, marker, payload type, sequence number, timestamp and SSRC it was built from, and the payload behind them |
| RtpVideo.BitsOfWord0 | images/ustreamer/janus/src/rtp.c:51-56 | the shifts and ors of the first header word are the sums used in the model |
| RtpVideo.BitsOfFu | images/ustreamer/janus/src/rtpv.c:151-159 | the same for the FU indicator and the FU header |
| RtpVideo.Rtp.WriteHeader | images/ustreamer/janus/src/rtp.c:50-65 | the first 12 bytes are the header, the others are untouched, and the 16-bit counter advances |
| RtpVideo.FragmentsOk | images/ustreamer/janus/src/rtpv.c:142-169 | fragments fit in 1200 bytes, have consecutive sequence numbers mod 2^16 and one timestamp, and only the last may carry the marker |
| RtpVideo.NaluShape | images/ustreamer/janus/src/rtpv.c:123-170 | a NAL of at most 1188 bytes leaves as one packet with exactly its bytes; a longer one as at least two FU-A packets, the start bit on the first only and the end bit on the last only |
| RtpVideo.FrameShapeOk | images/ustreamer/janus/src/rtpv.c:96-120 | the packets of a frame fall into consecutive parts, one for each NAL, each of that shape |
| RtpVideo.NoLoneFragment | images/ustreamer/janus/src/rtpv.c:143-159 | a fragmented NAL has at least two fragments and none has both the start and the end bit |
| RtpVideo.FrameOk | images/ustreamer/janus/src/rtpv.c:96-120 | the same for all packets of a frame; the marker is on the final packet of the last NAL and nowhere else |
| RtpVideo.DepacketiseFragments | images/ustreamer/janus/src/rtpv.c:138-169 | the FU-A reassembly of section 5.8 of RFC 6184 rebuilds the fragmented NAL |
| RtpVideo.SplitOk | images/ustreamer/janus/src/rtpv.c:96-120 | splitting an access unit of 3- and 4-byte start codes returns exactly its NAL units |
| RtpVideo.RoundTrip | images/ustreamer/janus/src/rtpv.c:85-182 | for every access unit of valid NALs, a receiver following sections 5.6 and 5.8 of RFC 6184 gets exactly the original list of NALs from the emitted datagrams |
| RtpVideo.StreamGrows | images/ustreamer/janus/src/rtpv.c:85-121 | appending a frame keeps sizes and consecutive sequence numbers of the whole stream |
| RtpVideo.StreamOnTheWire | images/ustreamer/janus/src/rtpv.c:128-169 | over a whole stream every datagram fits in 1200 bytes, shows its fields to a reader, and its number follows the one before |
| RtpVideo.Rtpv.FindAnnexB | images/ustreamer/janus/src/rtpv.c:172-182 | returns the first start code at or after the position, or a negative number when there is none |
| RtpVideo.Rtpv.SendFragment | images/ustreamer/janus/src/rtpv.c:143-164 | hands out one FU-A datagram |
| RtpVideo.Rtpv.ProcessNalu | images/ustreamer/janus/src/rtpv.c:123-170 | hands out exactly the packets of the NAL and advances the sequence number by their count |
| RtpVideo.Rtpv.Wrap | images/ustreamer/janus/src/rtpv.c:85-121 | hands out exactly the packets of the NAL units of the frame, in order |
| RequestPath.Simplify | images/ustreamer/src/ustreamer/http/path.c:34-118 | never longer than the input; the exact result for every input; it is the component-stack normal form if and only if the path behind the skipped prefix is absolute or not awkward |
| RequestPath.NormalIff | images/ustreamer/src/ustreamer/http/path.c:69-117 | over all paths: the result is the normal form exactly for absolute paths and for relative ones unless a first component of one letter survives or a final ".." removes the first component |
| RequestPath.LetterLost | images/ustreamer/src/ustreamer/http/path.c:102-110 | every path of the form of "a/b" loses its first component, and such a path comes through the skipped prefix unchanged unless it starts with a dot or a space |
| RequestPath.LetterLeft | images/ustreamer/src/ustreamer/http/path.c:92-100 | every path of the form of "ab/.." leaves the first letter of its first component, with the same remark |
| RequestPath.SkipPrefix | images/ustreamer/src/ustreamer/http/path.c:58-67 | skips leading spaces and one leading "." or ".." component |
| RequestPath.SkippedExactly | images/ustreamer/src/ustreamer/http/path.c:58-67 | the body is the path without exactly its leading spaces and then a first component that is "." or ".." |
| RequestPath.SimplifyBody | images/ustreamer/src/ustreamer/http/path.c:69-116 | the single pass leaves the result in the buffer, and the output never overtakes the input |
| RequestPath.CloseToken | images/ustreamer/src/ustreamer/http/path.c:84-113 | at the end of a component: drop, pop or keep it, and what stays behind at the end of the path |
| RequestPath.PopComponent | images/ustreamer/src/ustreamer/http/path.c:89-95 | walking back to the previous slash or the start removes exactly the last component |
| RequestPath.TokenTests | images/ustreamer/src/ustreamer/http/path.c:85-102 | the tests on toklen, the two previous characters and *slash recognise "/..", "/." and tokens of one character exactly |
| RequestPath.NormaliseIdempotent | images/ustreamer/src/ustreamer/http/path.c:34-118 | the normal form of any path is its own normal form and free of empty, "." and ".." components |
| RequestPath.SecondPass | images/ustreamer/src/ustreamer/http/path.c:34-118 | the result for an absolute path is absolute and a second pass leaves it unchanged |
| FrameIds.TripleBijective | images/ustreamer/src/libs/tools.h:104-114 | us_triple_u32 is a bijection on 32-bit words, with a given inverse, and fixes 0 |
| FrameIds.NowIdDistinct | images/ustreamer/src/libs/tools.h:141-144 | clock readings that differ mod 2^32 give different ids and no reading gives 0 |
| Frames.Frame.Reallocate | images/ustreamer/src/libs/frame.c:49-54 | the buffer grows when needed, never shrinks, and keeps its contents |
| Frames.Frame.SetData | images/ustreamer/src/libs/frame.c:56-60 | the frame holds exactly the given bytes and keeps its metadata |
| Frames.Frame.AppendData | images/ustreamer/src/libs/frame.c:62-67 | the bytes are appended to what the frame held |
| Frames.Frame.CopyFrom | images/ustreamer/src/libs/frame.c:69-72 | the frame becomes equal in bytes and metadata |
| Frames.Frame.Compare | images/ustreamer/src/libs/frame.c:74-80 | true exactly when both have a buffer, the same bytes and the same metadata apart from the timings |
| Frames.GeometryIsAllButTimings | images/ustreamer/src/libs/frame.h:70-81 | two metadata agree in geometry exactly when they differ in the three timings at most |
| MemorySink.Server.Put | images/ustreamer/src/libs/memsink.c:164-210 | publishes bytes, metadata and id and reports the pending key request; oversized or unlocked puts change nothing; the exact error result |
| MemorySink.Client.Get | images/ustreamer/src/libs/memsink.c:212-260 | returns the published image exactly when its id is new, remembers the id, may leave a key request; the exact result of lock and unlock failures |
| MemorySink.GetIsFresh | images/ustreamer/src/libs/memsink.c:239-252 | a get finds an image exactly when there are puts the client has not looked at, and it is the newest |
| MemorySink.ApplyOk | images/ustreamer/src/libs/memsink.c:164-260 | every put and get keeps the sink and all clients consistent with the puts so far |
| MemorySink.ReadersInOrder | images/ustreamer/src/libs/memsink.c:164-260 | over every run of puts and gets, failing unlocks included, with distinct non-zero ids: each client receives a subsequence of the frames put, in order, never repeated, bytes and metadata as put |
| MemorySink.ClockIdsAreGood | images/ustreamer/src/libs/tools.h:141-144 | puts at clock readings that differ mod 2^32 have such ids |
| MemorySink.OversizedIgnored | images/ustreamer/src/libs/memsink.c:169-173 | any sequence of puts and gets ends as it would without the frames that are larger than the sink |
| MemorySink.LastVisitExact | images/ustreamer/src/libs/memsink.c:236-237 | over every run last_client_ts is the time of the last locked client visit after the first put, and magic and version are set from the first put on |
| MemorySink.ForeignRegion | images/ustreamer/src/libs/memsink.c:225-234 | a region of another kind is not changed by a get and yields no frame; it fails exactly when only the version differs |
| KeyFrameRequests.RequestStays | images/ustreamer/src/libs/memsink.c:178-184 | over every run a key request stays in the sink until a key frame is put |
| KeyFrameRequests.PendingIff | images/ustreamer/src/libs/memsink.c:178-184 | over every run a request is pending if and only if no key frame was published since an initial one, or since some successful client get that required a key frame |
| KeyFrameRequests.ForcedIff | images/ustreamer/src/ustreamer/stream.c:717-724 | over every run an encode is forced if and only if its caller asks for it or the last event before it that reached the compressor published its frame and left a request pending in the sink |
| KeyFrameRequests.RequestForcesNext | images/ustreamer/src/ustreamer/stream.c:704-728 | after a put that reports the request, the next encode that reaches the compressor is forced, whatever undecodable frames and client gets lie between |
| KeyFrameRequests.TwoEncodesAnswer | images/ustreamer/src/ustreamer/stream.c:704-728 | if the compressor honours the force flag, two published encodes after a request include a key frame |
| KeyFrameRequests.FailedCompressionForgets | images/ustreamer/src/ustreamer/stream.c:717-724 | over every run: after an encode that reached the compressor and was not published, the next one is not forced although the request still waits |
| KeyFrameRequests.ForgottenRequest | images/ustreamer/src/ustreamer/stream.c:704-728 | from any sink, a run that does this: request, published frame, failed forced compression, unforced encode |
| KeyFrameRequests.FlagHistory | images/ustreamer/src/ustreamer/stream.c:717-724 | the same for the flag of the encoder at any point of a run, whatever happened in between |
| Base64.EncodeInto | images/ustreamer/src/libs/base64.c:47-79 | buffer reuse rule, 4*ceil(n/3) characters plus NUL written inside the buffer and nothing else changed, no index wraps, and decoding gives the input back |
| Base64.WriteBody | images/ustreamer/src/libs/base64.c:57-72 | the main loop fills exactly the encoded length with the symbols of zero-padded groups |
| Base64.Pad | images/ustreamer/src/libs/base64.c:74-78 | the padding loop replaces exactly the last characters, and the NUL follows |
| Base64.EncodeIsPaddedBody | images/ustreamer/src/libs/base64.c:74-76 | padding what the main loop wrote gives the encoding of section 4 of RFC 4648 |
| Base64.DecodeEncode | images/ustreamer/src/libs/base64.c:57-76 | a decoder of section 4 of RFC 4648 gives every byte string back |
| Base64.EncodeDecode | images/ustreamer/src/libs/base64.c:57-76 | every text that decoder accepts is the encoding of what it decodes to |
| Base64.TableIsStandard | images/ustreamer/src/libs/base64.c:33-42 | the encoding table is the alphabet of the RFC |
| Base64.BitsOfTriple | images/ustreamer/src/libs/base64.c:64-66 | the shifts and masks select the four 6-bit groups of three octets |
| Base64.LengthIs | images/ustreamer/src/libs/base64.c:48-48 | the recursive length is 4 * ((n + 2) / 3) |
| FrameText.TwoThirds | images/ustreamer/src/libs/frametext.c:126-137 | for every text and frame size the scaled block takes at most two thirds of each dimension |
| FrameText.ProportionsShrink | images/ustreamer/src/libs/frametext.c:133-137 | keeping proportions only shrinks the scales and leaves them 3 : 2 up to rounding |
| FrameText.ProportionsExact | images/ustreamer/src/libs/frametext.c:133-137 | the corrected scales are the smaller of each scale and what 3 : 2 allows beside the other |
| FrameText.ScaleLargest | images/ustreamer/src/libs/frametext.c:126-131 | each scale before that is the largest at which the block takes half of the size, or two thirds when the text is long |
| FrameText.DrawnIff | images/ustreamer/src/libs/frametext.c:126-137 | a text is visible if and only if the frame is at least 16 pixels wide per column and 32 high per line, or 24 when there are more than eight lines |
| FrameText.LayoutFits | images/ustreamer/src/libs/frametext.c:141-151 | every line lies inside the frame |
| FrameText.LinesCentred | images/ustreamer/src/libs/frametext.c:141-149 | the block is centred vertically and every line horizontally, up to one pixel |
| FrameText.LinesKeepText | images/ustreamer/src/libs/frametext.c:115-118 | the lines are the text without its newlines, in order |
| FrameText.CellIsMagnified | images/ustreamer/src/libs/frametext.c:179-182 | character, row and column computed by the source are those of the unscaled pixel |
| FrameText.BitsSpell | images/ustreamer/src/libs/frametext.c:179-182 | the bits the drawing takes out of a font byte spell that byte |
| FrameText.EveryPixel | images/ustreamer/src/libs/frametext.c:165-191 | every colour byte is the font bit where a line covers the pixel and black elsewhere |
| FrameText.DrawRow | images/ustreamer/src/libs/frametext.c:168-191 | a pixel row of a line is written in place; neither break of the loop is taken |
| FrameText.DrawLine | images/ustreamer/src/libs/frametext.c:158-193 | a line is written in place, pixel row by pixel row |
| FrameText.Plan | images/ustreamer/src/libs/frametext.c:109-151 | the layout the source computes, or nothing to draw when there are no lines |
| FrameText.Paint | images/ustreamer/src/libs/frametext.c:109-154 | on a black frame the drawing gives the picture of the text |
| FrameText.Drawer.Draw | images/ustreamer/src/libs/frametext.c:83-154 | after any earlier draws, and whether or not the cache is hit, the frame holds the picture of the last arguments |
| Exposure.Server.ExposeFrame | images/ustreamer/src/ustreamer/http/server.c:954-995 | the new exposed frame and drop counter, and the answer whether the frame was exposed |
| Exposure.DroppingIsInvisible | images/ustreamer/src/ustreamer/http/server.c:960-985 | after any frames the exposed one has bytes and geometry of the latest non-empty frame and the online mark of the latest; dropped never exceeds the limit |
| Exposure.Server.Listen | images/ustreamer/src/ustreamer/http/server.c:199 | the blank picture becomes the exposed frame before any other arrives |
| Exposure.HowOld | images/ustreamer/src/ustreamer/http/server.c:960-987 | when no empty frame arrives the exposed one is, timings included, the one that arrived `dropped` frames ago; after a first frame it is never the picture from before, as that one is offline |
| Exposure.NoLongSilence | images/ustreamer/src/ustreamer/http/server.c:963-974 | the counter is exactly the number of frames dropped in a row, so limit + 1 in a row never are |
| Exposure.DroppedIff | images/ustreamer/src/ustreamer/http/server.c:963-974 | after any frames the next is dropped if and only if it is online, equal to the latest data and online mark, and fewer than the limit were dropped in a row |
| Exposure.StandingStill | images/ustreamer/src/ustreamer/http/server.c:963-987 | n equal frames in a row leave the counter at (n - 1) mod (limit + 1) |
| Exposure.StreamClients.Add | images/ustreamer/src/ustreamer/http/server.c:607-610 | the counted list grows by the client and has_clients is up |
| Exposure.StreamClients.Remove | images/ustreamer/src/ustreamer/http/server.c:786-789 | the counted list loses the client and has_clients says exactly whether one is left |
| Exposure.WritesExactly | images/ustreamer/src/ustreamer/http/server.c:825-843 | a client is written to on its first tick, on every change and, with dual_final_frames, once more at the end of a series, and at no other time |
| JanusPlugin.Plugin.Create | images/ustreamer/janus/src/plugin.c:464-472 | appends a silent client and raises the watcher flag; -1 and no change when disabled |
| JanusPlugin.Plugin.Destroy | images/ustreamer/janus/src/plugin.c:474-501 | removes every client of the session, recomputes the three flags; -2 exactly when there was none |
| JanusPlugin.Plugin.SetTransmit | images/ustreamer/janus/src/plugin.c:517-539 | changes that session and recomputes the watcher flag |
| JanusPlugin.Plugin.Watch | images/ustreamer/janus/src/plugin.c:655-671 | changes that session and recomputes the listener and speaker flags |
| JanusPlugin.RemoveWalk | images/ustreamer/janus/src/plugin.c:481-492 | iterating while unlinking visits each client once |
| JanusPlugin.ChangeWalk | images/ustreamer/janus/src/plugin.c:524-531 | the walk changes exactly the clients of the session and sums up the flags |
| JanusPlugin.WithoutKeepsOthers | images/ustreamer/janus/src/plugin.c:481-492 | destroying a session removes all its clients and keeps every other one |
| JanusPlugin.FlagsExact | images/ustreamer/janus/src/plugin.c:464-671 | after any run of callbacks the listener and speaker flags equal "some client has it", a microphone implies audio, speakers imply listeners, transmitting implies the watcher flag |
| JanusPlugin.ChangeExact | images/ustreamer/janus/src/plugin.c:524-531 | every client of the session gets exactly what was asked for and every other client stays as it is |
| JanusPlugin.SessionsApart | images/ustreamer/janus/src/plugin.c:464-671 | over every run of callbacks the clients of a session are what its own callbacks alone would have made of them |
| JanusPlugin.RequestHeard | images/ustreamer/janus/src/plugin.c:604-671 | after a "watch" request and until the next callback for its session, over every run, all its clients have the streams it asked for as far as there are devices, and its orientation |
| JanusPlugin.WatchersExact | images/ustreamer/janus/src/plugin.c:464-539 | the watcher flag is up exactly while some client transmits or a session was created since the flag was last recomputed |
| JanusPlugin.Orientation | images/ustreamer/janus/src/plugin.c:617-621 | 90, 180 and 270 are kept, a JSON integer gives one of them exactly when it is equal to it mod 2^32, and 0 otherwise |
| RateLimiting.SentInOrder | images/tinypilot/app/static/js/mouse.js:137-181 | for every interleaving of events and timeouts: sent events are an in-order selection containing every high-priority one; the latest event is the last sent or is queued with a timeout running |
| RateLimiting.RateLimited | images/tinypilot/app/static/js/mouse.js:144-175 | the number of events sent is at most high-priority events + timeouts + 1 |
| RateLimiting.TimeoutDrains | images/tinypilot/app/static/js/mouse.js:167-175 | one timeout after the last event everything due is sent; after two the window is shut |
| RateLimiting.Spaced | images/tinypilot/app/static/js/mouse.js:144-175 | between two sends of which the second is for a low-priority event lies a timeout |
| RateLimiting.HighAtOnce | images/tinypilot/app/static/js/mouse.js:137-142 | a high-priority event is sent at once, after everything before it, and forgets the queued one |
| RateLimiting.RateLimitedMouse.ProcessHighPriority | images/tinypilot/app/static/js/mouse.js:137-142 | sends at once, forgets the queued event and restarts the window |
| RateLimiting.RateLimitedMouse.ProcessLowPriority | images/tinypilot/app/static/js/mouse.js:144-150 | queues inside the window, replacing what was queued, and sends outside it |
| RateLimiting.RateLimitedMouse.OnTimeout | images/tinypilot/app/static/js/mouse.js:168-174 | sends the queued event and opens a new window, or closes the window |

## Left out

- The DRM thread of `stream.c` (compile-time optional), session teardown, and the stop after a QBUF failure in a releaser: the session theorems are about a running session.
- Progress: no theorem says that a thread is eventually scheduled; real time, condition-variable wake-ups and timeouts are nondeterministic steps or parameters.
- Memory ordering: every atomic or mutex-protected access is one sequentially consistent step, and the plain `grabbed` flag is treated like one.
- FrameText.Drawer.Draw: requires that 3 * width * height and 8 times the text length are below 2^32, because the source computes in 32 bits; the scales are computed over the reals, without the rounding of `float` for quotients above 2^24; the font is a parameter.
- Base64.EncodeInto: requires an encoding shorter than 2^32 characters, because the source's loop indices have 32 bits.
- WorkerScan.Pool.Wait: describes a scan during which no worker changes its flag; the interleaved scan is part of `WorkersPool`.
- RateLimiting.SentInOrder: the send function does not call back into the limiter, and changing the length of the window is not an action.
- JanusPlugin.FlagsExact: calls made while the plugin is disabled are not part of the runs; they change nothing (see the contracts of `JanusPlugin.Plugin`). The SDP text and the replies are not modelled.
- `us_memsink_server_check`, sink creation and destruction, file locking itself, and the Janus-side reader `memsinkfd.c`.
- Exposure timestamps, the periodic repetition of the exposed frame and the snapshot clients of `server.c`.
- Audio (`au.c`, `rtpa.c`), SDP, V4L2, DRM, JPEG, M2M, ALSA, Opus, libevent and GPIO calls: foreign code, replaced by scripts or nondeterministic steps where a model needs their answers.
- The Flask application, request parsers, settings, key maps, option parsing, logging and deployment files: input/output and table lookups.
