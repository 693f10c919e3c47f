# Verification of the i.MX camera and audio HALs

A Dafny 4.11 model of the two stateful parts of this repository, and of the arithmetic and byte
layouts around them, with proofs. `dafny verify dfyconfig.toml` checks everything.

**Camera capture pipeline** (`camera_model.dfy`, `camera_invariant.dfy`, `camera_theorems.dfy`,
`camera_delivery.dfy`, `camera_session.dfy`, `video_stream.dfy`). The framework thread, the WorkThread and
the ImgProcThread are a step system, one step per lock region, over the two counter pairs, the frame-ordered
map, the image list and the V4L2 buffers. `CameraInvariant.Inv` is inductive and yields the theorems about
counters, buffer owners, pipelines, fences, request vectors, outcomes and drains for every interleaving;
`CameraDelivery` says over runs which request gets which frame and what becomes of its buffer.
`CameraSession.Session` is the same state as a class, one method per region; its `Run` dispatches any
schedule of the three threads to them and follows every run of the model. `VideoStream.Stream` does the
start, stop, recovery and frame omission of one device node in place, and its acquisition loop agrees with
the steps of the pipeline.

**Audio stream engine** (`audio_capture.dfy`, `audio_output.dfy`). The re-chunking buffers of the
capture path, first on sequences, then in place on arrays; and the arbitration of output streams and
audio patches over every sequence of API calls.

**Transforms and caches** (`external_camera.dfy`, `yuv_strips.dfy`, `jpeg_builder.dfy`,
`isp_wrapper.dfy`, `resolutions.dfy`). Format choice, crop rectangle and plane addressing of the
external camera; strip-wise deinterleaving for the JPEG encoder; splicing of the EXIF segment; the
write-skipping ISP settings cache; resolution tables and advertised stream configurations.
`common.dfy` holds what several modules share.

## What the code does not do

Promises that turned out false are stated as lemmas that say exactly when they hold.

- `DestroyPipelines` may free a `PipelineInfo` that the image thread still uses. For a failed capture
  `HandleImage` counts the image as processed before it makes the error callback, so both waits can
  pass in between. This is the only such case (`DestroyRace`, `OnlyErrorCallbackAtRisk`), it is
  reachable (`DestroyRaceHappens`), and runs whose captures all succeed are free of it
  (`CapturedRunsAreSafe`).
- A request vector without requests is never deleted (`VectorsDeletedOnce`, `EmptyVectorStays`).
- A frame number submitted again while it is pending, and only then, unbalances the counters
  (`ReuseIff`), and `DestroyPipelines` waits for ever, whatever is submitted later
  (`FirstWaitPassesIff`, `ReuseBlocksDestroy`, `ReuseHappens`).
- `onFrameAcquire` is not bounded for every behaviour of the device: the first frame of a restart refills the
  recovery budget even if it is then omitted. `AcquireBoundedIff` says exactly from which states it is.
- A frame to omit whose VIDIOC_QBUF fails is not counted, so that as many later frames are not surfaced
  either (`LaterFramesSurface`, `FailedRequeueDelays`).
- A device that cannot be reopened during a recovery stays closed: the code that opens it runs only on a
  running stream (`LostStaysLost`).
- `ConfigAndStart` returns 0 on a stopped stream exactly when the request looks like the saved
  configuration and is no recovery (`OkOnStoppedIff`). A failed call can lead there (`MisledAfterIff`):
  after a late failure the same request does, unless the scene mode differs (`FailedStartLooksSame`);
  after an early one going back to the former configuration does (`FailedReopenLooksSame`).
- `DMAStream::allocateBuffersLocked` returns 0 also when an allocation fails, and keeps what it had
  allocated until then (`DmaBuffers.Allocate`).
- A read error in `read_frames` drops the frames read before it in the same call (`DrawFailsIff`), and
  with several effects the first one is shown frames again that a later one did not consume
  (`FirstEffectSeesAgainIff`).
- A valid `adev_create_audio_patch` returns 0 whether or not it patched anything (`CreateTellsByHandle`,
  `CreateHidesMismatch`), and releasing the handle NONE detaches the first stream without a patch
  (`ReleaseNoneIff`, `ReleaseNoneStopsPlayback`).
- `trimSupportedFormats` may remove the very size that all others are cut from (`LargestStaysIff`);
  those kept can be cut from the largest of them exactly when they fit into it
  (`KeptFromLargestKeptIff`, `LostLargestBreaksCropping`). `getCroppedLayout` refuses a rectangle of
  `getCropRect` when a side that was not cut is odd (`CropRectAcceptedIff`).
- An image lower than one strip is handed to the encoder with luma row pointers that were never set
  (`CompressNv12`).
- The offset in `InsertEXIFAndJpeg` is fixed by its first call, so the APP1 length is right only for the
  same EXIF size (`LengthFieldIff`), and the size check covers EXIF data only up to the end of the image
  (`WritesFitIff`). The scan for the tables looks past an image that has none and ends in 0xff
  (`ScanFitsIff`).
- `recoverFeatures` ignores a refused dewarp write and leaves the cache wrong, and later requests for
  the cached value are skipped (`RecoverDewarpIff`, `RefusedRecoverSticks`). Before anything was saved it
  replays zeroes over the driver's defaults (`FirstRecoveryIff`), and after a start that could not read
  those it replays nothing (`MissedReadIff`), nor does it replay the flips after a raw capture
  (`RecoverRestores`). A restart without `recoverFeatures` leaves stale colour
  caches (`ResetCoherentIff`).
- A camera without any preview or picture size is advertised with one stream configuration that was
  never written (`BuildStreamConfig`), and the raw configuration is accepted only if its size happens to
  be a preview size (`AdvertisedIsSupported`). With two full tables its row lies past the array
  (`BuildStreamConfig`, `RowsFitIff`).

Where a comment and the code differ, the model follows the code. The comment at
`camera/CameraDeviceSessionHWLImpl.cpp:1847` takes equal counters to mean that all images are processed,
which fails for the error callback above; the one at `camera/CameraDeviceSessionHWLImpl.cpp:587` says that
`onFrameAcquire` should not return a null pointer after its recovery, which it does once the budget is spent.

## Model

| member | source | states |
|---|---|---|
| `CameraInvariant.InvStep` | camera/CameraDeviceSessionHWLImpl.cpp:434-501 | every step of any of the three threads keeps the invariant of the whole pipeline |
| `CameraInvariant.InvReachable` | camera/CameraDeviceSessionHWLImpl.cpp:698-927 | the invariant holds after every run, whatever the interleaving |
| `CameraTheorems.CountersBalance` | camera/CameraDeviceSessionHWLImpl.cpp:434-501 | submitted = dequeued + pending + being dispatched, and fed = processed + listed + being processed, at every moment |
| `CameraTheorems.OneOwnerEach` | camera/CameraDeviceSessionHWLImpl.cpp:828-836 | each V4L2 buffer of the current start has exactly one owner among driver queue, WorkThread, image list, image thread and lost, and no other buffer has any |
| `CameraTheorems.FreeIsSafe` | camera/VideoStream.cpp:149-167 | when ConfigAndStart frees the buffers, in a normal start or a recovery, no thread and no list entry holds one |
| `CameraTheorems.ReturnsAreCurrent` | camera/MMAPStream.cpp:369-405 | a buffer handed back by the image thread belongs to the present start and is not queued already |
| `CameraTheorems.NoUnknownPipeline` | camera/CameraDeviceSessionHWLImpl.cpp:736-741 | the early exits for an unknown pipeline in HandleRequest and HandleImage are unreachable |
| `CameraTheorems.OnlyErrorCallbackAtRisk` | camera/CameraDeviceSessionHWLImpl.cpp:743-763 | the only step that can touch a freed PipelineInfo is the error callback for a missing buffer |
| `CameraTheorems.WaitsEmptyThePipeline` | camera/CameraDeviceSessionHWLImpl.cpp:1875-1889 | after both waits of DestroyPipelines nothing is in flight and there is nothing to clean |
| `CameraTheorems.DestroyRace` | camera/CameraDeviceSessionHWLImpl.cpp:1865-1917 | DestroyPipelines frees a PipelineInfo still in use if and only if the image thread has counted a missing buffer and not yet reported it |
| `CameraTheorems.DestroyRaceHappens` | camera/CameraDeviceSessionHWLImpl.cpp:743-763 | that state is reachable: a concrete run leads to a use after the free |
| `CameraTheorems.CapturedRunsAreSafe` | camera/CameraDeviceSessionHWLImpl.cpp:583-593 | a run in which every capture delivers a buffer never uses a freed PipelineInfo |
| `CameraTheorems.OutcomesInOrder` | camera/CameraDeviceSessionHWLImpl.cpp:765-774 | at any time the callbacks made are those of the oldest requests, complete and in submission order, then at most one open shutter |
| `CameraTheorems.EveryRequestAnswered` | camera/CameraDeviceSessionHWLImpl.cpp:890-917 | once the pipeline is quiet each request has had exactly one device error, or exactly one shutter followed by one result with all its output buffers |
| `CameraTheorems.FencesClosedOnce` | camera/CameraDeviceSessionHWLImpl.cpp:411-432 | every imported acquire fence is closed at most once at any time and exactly once when the pipeline is quiet |
| `CameraTheorems.VectorsDeletedOnce` | camera/CameraDeviceSessionHWLImpl.cpp:656-677 | a request vector is deleted once, after all its requests were released; exactly the non-empty ones are |
| `CameraTheorems.EmptyVectorStays` | camera/CameraDeviceSessionHWLImpl.cpp:463-501 | a concrete run ends quiet with a vector without requests still allocated |
| `CameraTheorems.NoDeletedVectorUsed` | camera/CameraDeviceSessionHWLImpl.cpp:667-673 | no step of any thread touches a deleted request vector |
| `CameraTheorems.DrainsKeepNoNeededLock` | camera/CameraDeviceSessionHWLImpl.cpp:1843-1863 | a thread waiting in either drain keeps no lock that any region of the image thread takes |
| `CameraTheorems.ImageThreadRuns` | camera/CameraDeviceSessionHWLImpl.cpp:1843-1863 | while images are left the image thread has a step to make, and the locks which that step takes are free |
| `CameraTheorems.DrainEnds` | camera/CameraDeviceSessionHWLImpl.cpp:1843-1863 | every run of the image thread alone is bounded by the work left, is not stuck while a drain would wait, and has ended the drain if it is as long as the bound |
| `CameraTheorems.NoDeadlock` | camera/CameraDeviceSessionHWLImpl.cpp:1875-1889 | while DestroyPipelines has something to wait for, one of the two other threads can move |
| `CameraTheorems.QuietIff` | camera/CameraDeviceSessionHWLImpl.cpp:434-927 | nothing is in flight if and only if neither the WorkThread nor the image thread has a step to make |
| `CameraTheorems.BecomesQuiet` | camera/CameraDeviceSessionHWLImpl.cpp:434-927 | while the framework rests, every run of the two threads is bounded by the work left plus three steps for each time-out within the budget and one for each omitted frame; one that cannot go on has answered every request and lets both waits of DestroyPipelines pass |
| `CameraTheorems.RunAccounts` | camera/CameraDeviceSessionHWLImpl.cpp:1919-1965 | whatever frame numbers a run submits, its counters have lost exactly the submissions that overwrote a pending one |
| `CameraTheorems.ReuseIff` | camera/CameraDeviceSessionHWLImpl.cpp:1962-1964 | a submission keeps the counters balanced if and only if its frame number is not pending; otherwise they are out by one |
| `CameraTheorems.FirstWaitPassesIff` | camera/CameraDeviceSessionHWLImpl.cpp:1875-1882 | in any run the first wait of DestroyPipelines passes if and only if no pending number was overwritten and nothing is pending or dispatched |
| `CameraTheorems.ReuseBlocksDestroy` | camera/CameraDeviceSessionHWLImpl.cpp:1875-1882 | once a pending number was overwritten that wait never passes again, whatever is submitted later |
| `CameraTheorems.ReuseHappens` | camera/CameraDeviceSessionHWLImpl.cpp:1919-1965 | a concrete run submits frame 0 twice, and no continuation of it gets past the wait |
| `CameraDelivery.LostIsRefused` | camera/MMAPStream.cpp:369-405 | over any run the buffers out of use are exactly those whose VIDIOC_QBUF failed since the stream was last stopped |
| `CameraDelivery.QueueWhenQuiet` | camera/MMAPStream.cpp:369-405 | when nothing is in flight the driver has every buffer of the current start except those it refused; all of them if no VIDIOC_QBUF failed |
| `CameraDelivery.ResultIffSurfaced` | camera/CameraDeviceSessionHWLImpl.cpp:514-654 | over any run a request is answered with a result if and only if onFrameAcquire surfaced a frame for it, and the buffer processed for a request and given back is the one that surfaced for it |
| `CameraDelivery.IntentReconfigures` | camera/CameraDeviceSessionHWLImpl.cpp:305-398 | a request that needs another configuration is not captured for until the stream has been restarted; any other is at once |
| `CameraDelivery.GoodStartFeeds` | camera/VideoStream.cpp:149-229 | after a good start, normal or in a recovery, the same request is captured for from the buffers of the new start, and its frame is fed unless it is to be omitted |
| `CameraDelivery.FailedStartLeads` | camera/VideoStream.cpp:220-224 | after a failed start the driver has no buffer; a recovery gives the request up, a normal start goes on to try |
| `CameraDelivery.FencesClosedBeforeResult` | camera/CameraDeviceSessionHWLImpl.cpp:776-843 | all fences of a request are closed before its buffer is given back and its result delivered |
| `CameraDelivery.DestroyCompletes` | camera/CameraDeviceSessionHWLImpl.cpp:1865-1917 | on a quiet session DestroyPipelines passes both waits and leaves no pipeline; without built pipelines it changes nothing |
| `CameraSession.Session.SubmitRequests` | camera/CameraDeviceSessionHWLImpl.cpp:1919-1965 | imports every fence, enters the vector in the map under its frame and counts it; exactly the model's step |
| `CameraSession.Session.CleanRequestsLocked` | camera/CameraDeviceSessionHWLImpl.cpp:1979-2003 | releases every pending request, closes its fences and deletes each vector once |
| `CameraSession.Session.DestroyEnds` | camera/CameraDeviceSessionHWLImpl.cpp:1889-1916 | the last lock region of DestroyPipelines is the model's step |
| `CameraSession.Session.FirstFrame` | camera/CameraDeviceSessionHWLImpl.cpp:451-454 | the scan of the map finds the smallest frame number |
| `CameraSession.Session.DequeueFrameRequest` | camera/CameraDeviceSessionHWLImpl.cpp:434-457 | the first lock region of HandleRequest takes the oldest submission or nothing |
| `CameraSession.Session.HandleOne` | camera/CameraDeviceSessionHWLImpl.cpp:466-480 | an unknown pipeline is skipped, a known one goes on to capture or to reconfiguration |
| `CameraSession.Session.AcquireFrame` | camera/VideoStream.cpp:342-378 | what a dequeued frame does to the stream and the WorkThread is the model's step |
| `CameraSession.Session.BeginImage` | camera/CameraDeviceSessionHWLImpl.cpp:731-774 | the three ways on from a popped image: unknown pipeline, missing buffer, shutter |
| `CameraSession.Session.CloseRequestFences` | camera/CameraDeviceSessionHWLImpl.cpp:420-429 | exactly the armed fences of one request are closed, each once |
| `CameraSession.Session.ReleaseFeed` | camera/CameraDeviceSessionHWLImpl.cpp:656-677 | fences closed, and the vector deleted by its last request: the model's step |
| `CameraSession.PreconditionsHold` | camera/CameraDeviceSessionHWLImpl.cpp:1919-1965 | what the methods assume beyond their lock region holds in every reachable state |
| `CameraSession.Session.Reconfigure` | camera/VideoStream.cpp:152-229 | the locked part of ConfigAndStart stops the stream and queues every buffer of a new start, or leaves it stopped: the model's step |
| `CameraSession.Session.Region` | camera/CameraDeviceSessionHWLImpl.cpp:434-927 | in every reachable state an enabled region of any thread can be executed, inside the precondition of its method, and makes the step of the model |
| `CameraSession.Session.Run` | camera/CameraDeviceSessionHWLImpl.cpp:434-927 | the three threads interleaved by any schedule: the object ends in the state of the model's run, with the invariant |
| `VideoStream.FirstFramesNeverSurface` | camera/VideoStream.cpp:357-378 | no call surfaces one of the first mOmitFrmCount frames of a start, whatever fails |
| `VideoStream.LaterFramesSurface` | camera/VideoStream.cpp:342-378 | after any calls, whatever failed in them, the next frame is surfaced if and only if mOmitFrmCount frames of this start were given back before it; so the promise to surface every later frame is kept for it if and only if it is not among as many frames as requeues failed |
| `VideoStream.SurfacesAfterOmitted` | camera/VideoStream.cpp:357-378 | with k frames to omit the first k are requeued in order and the next is surfaced |
| `VideoStream.OmitCountsOverCalls` | camera/VideoStream.cpp:259-378 | over any starts and acquisitions the counter is what is left to omit, a frame whose VIDIOC_QBUF failed not being counted |
| `VideoStream.FailedRequeueDelays` | camera/VideoStream.cpp:362-370 | a concrete history: one frame to omit, its requeue fails, and the second frame is given back as well |
| `VideoStream.LostStaysLost` | camera/VideoStream.cpp:156-186 | a device that could not be reopened is never opened again: no later call starts it, and every acquisition returns no buffer at once |
| `VideoStream.LostIff` | camera/VideoStream.cpp:156-186 | a start loses the device if and only if it stops a running stream for a reopening that fails |
| `VideoStream.CountersFollowFormat` | camera/VideoStream.cpp:188-229 | frame count and omit count belong to the format accepted last, also when the start then fails; the recovery count is kept |
| `VideoStream.AcquireReturns` | camera/VideoStream.cpp:286-379 | unless a time-out follows a frame the call returns within a stated bound, with at most MAX_RECOVER_COUNT recoveries |
| `VideoStream.ReturnsAtUsed` | camera/VideoStream.cpp:286-379 | a call returns with the first event that ends it and looks at no later one |
| `VideoStream.RecoveriesPaidByFrames` | camera/VideoStream.cpp:320-360 | for every behaviour of the device the recoveries are bounded by the budget plus one per frame |
| `VideoStream.AcquireBoundedIff` | camera/VideoStream.cpp:286-379 | a call is bounded for every behaviour of the device, by a stated number of passes, if and only if no restart with frames to omit is to be had: within the budget, or behind a first frame that is itself omitted |
| `VideoStream.CallsCover` | camera/VideoStream.cpp:121-379 | what that asks of the stream holds after any calls |
| `VideoStream.FrameStepAgrees` | camera/VideoStream.cpp:342-378 | a pass of the loop that dequeues a frame is the step of the pipeline model |
| `VideoStream.TimeoutStepsAgree` | camera/VideoStream.cpp:320-339 | a pass that times out is the select, drain and restart steps of the pipeline model |
| `VideoStream.OkOnStoppedIff` | camera/VideoStream.cpp:131-147 | a call reports success on a stopped stream if and only if nothing runs, it is no recovery and the configuration looks the same |
| `VideoStream.SuccessServes` | camera/VideoStream.cpp:121-230 | after a call that reports success rate, scene mode, resolution and format are those asked for, but for 320x240 on an i.MX8MQ and the two names of NV12 |
| `VideoStream.ShortcutIff` | camera/VideoStream.cpp:131-147 | the stream is left alone if and only if the call is no recovery and the saved configuration serves the request in each of these; otherwise success means a fresh start |
| `VideoStream.MisledAfterIff` | camera/VideoStream.cpp:149-229 | exactly which calls leave a stopped stream on which a given next request does so: failures before and after the format is accepted, and the shortcut itself |
| `VideoStream.FailedStartLooksSame` | camera/VideoStream.cpp:194-227 | after a start that failed late the same request does so if and only if its scene mode is the old one |
| `VideoStream.FailedReopenLooksSame` | camera/VideoStream.cpp:156-198 | after one that failed early going back to the former configuration does so |
| `VideoStream.Stream.RegisterBuffers` | camera/MMAPStream.cpp:169-240 | one buffer object per index up to the first failure, each live in exactly one table entry |
| `VideoStream.Stream.OnDeviceStart` | camera/MMAPStream.cpp:142-314 | either all buffers are registered and queued and the stream runs, or nothing is left behind |
| `VideoStream.StartFailsIff` | camera/MMAPStream.cpp:142-314 | a start fails if and only if one of its ioctls or mappings does |
| `VideoStream.Stream.OnDeviceStop` | camera/MMAPStream.cpp:316-367 | every buffer object is freed before STREAMOFF is tried |
| `VideoStream.Stream.PostConfigure` | camera/VideoStream.cpp:259-282 | the omit count is that of the first table entry with this resolution, or 0 |
| `VideoStream.OmitForFirst` | camera/VideoStream.cpp:272-281 | the omit count is that of the first table entry for the resolution, or 0 if it has none |
| `VideoStream.Stream.ConfigAndStart` | camera/VideoStream.cpp:121-230 | the no-op for the same configuration, and otherwise the exact new state for every way the device can fail |
| `VideoStream.Stream.OnFrameAcquire` | camera/VideoStream.cpp:286-379 | the loop computes the acquisition function and returns the table entry of the surfaced index, which is not null |
| `VideoStream.DmaBuffers.Allocate` | camera/DMAStream.cpp:214-276 | returns 0 in every case; the table is balanced if and only if no allocation failed |
| `VideoStream.DmaBuffers.Free` | camera/DMAStream.cpp:278-299 | frees all buffers of the last allocation, whatever the buffer number was changed to |
| `AudioCapture.ServedInOrder` | alsa/tinyalsa_hal.cpp:2279-2336 | for any interleaving of requests and partial releases the released chunks are the captured stream from its start |
| `AudioCapture.DrawIsNextFrames` | alsa/tinyalsa_hal.cpp:2341-2385 | a successful read returns exactly the next n frames whatever the period size and leftover, and the rest of the stream follows |
| `AudioCapture.DrawFailsIff` | alsa/tinyalsa_hal.cpp:2376-2381 | a read fails if and only if an error comes before n frames do; then all frames before the error are dropped |
| `AudioCapture.DrawWithin` | alsa/tinyalsa_hal.cpp:2295-2324 | never more than a period stays unread |
| `AudioCapture.ProcessConserves` | alsa/tinyalsa_hal.cpp:2390-2484 | frames consumed, frames kept, frames lost to a read error and the unread stream together are the stream before the call |
| `AudioCapture.ProcessReturnsAll` | alsa/tinyalsa_hal.cpp:2404-2484 | a call that returns has written exactly the frames asked for, and proc_buf_in never holds more than was ever asked for |
| `AudioCapture.ReturnsWhenProduced` | alsa/tinyalsa_hal.cpp:2404-2484 | unless a read fails the call goes on if and only if the last effects have produced fewer frames together than were asked for |
| `AudioCapture.ProcessFinishes` | alsa/tinyalsa_hal.cpp:2404-2484 | effects that always produce something finish the call in at most as many rounds as frames |
| `AudioCapture.EffectsSeeTheStream` | alsa/tinyalsa_hal.cpp:2390-2484 | over any sequence of successful calls the effects consume the captured stream, in order, nothing lost or repeated |
| `AudioCapture.FirstEffectSeesAgainIff` | alsa/tinyalsa_hal.cpp:2455-2467 | of several effects the first is shown frames again if and only if a later one consumes fewer |
| `AudioCapture.EchoConserves` | alsa/tinyalsa_hal.cpp:2195-2277 | ref_buf holds exactly the reference frames read and not used up, within its size, and no effect is offered more frames than it holds or than are being captured |
| `AudioCapture.EchoTopsUp` | alsa/tinyalsa_hal.cpp:2195-2249 | a read of the reference that works tops ref_buf up to the frames asked for, to all that was delivered, or to the end of the reference; one that fails changes nothing |
| `AudioCapture.ReverseConsumesLeast` | alsa/tinyalsa_hal.cpp:2263-2272 | what is used up is the least that any effect with process_reverse uses, or all that is offered |
| `AudioCapture.EchoStreamPreserved` | alsa/tinyalsa_hal.cpp:2250-2277 | over any run the reference stream is preserved in order |
| `AudioCapture.PushesFollowRounds` | alsa/tinyalsa_hal.cpp:2404-2442 | each push goes with one round while frames are missing, and is for all frames held then, at least those asked for |
| `AudioCapture.StreamIn.ReadFrames` | alsa/tinyalsa_hal.cpp:2341-2385 | the loop over get_next_buffer and release_buffer fills the buffer with the frames drawn and leaves the rest |
| `AudioCapture.StreamIn.ReloadProcBuf` | alsa/tinyalsa_hal.cpp:2406-2438 | proc_buf_in is grown and topped up behind what it holds, or unchanged on an error |
| `AudioCapture.StreamIn.DropConsumed` | alsa/tinyalsa_hal.cpp:2460-2467 | the consumed frames are gone from the front and the others moved there |
| `AudioCapture.StreamIn.PushEchoReference` | alsa/tinyalsa_hal.cpp:2195-2277 | the reference buffer is topped up, offered to every effect that takes it, and compacted |
| `AudioCapture.StreamIn.ProcessFrames` | alsa/tinyalsa_hal.cpp:2390-2508 | the in-place loop computes the function that the conservation lemmas are about, returns once the effects have produced the frames asked for, and leaves the echo reference as the pushes of its rounds do (`EchoStreamPreserved`) |
| `AudioOutput.InvHolds` | alsa/tinyalsa_hal.cpp:725-781 | in every reachable state an active non-direct stream shares its non-BUS device with no active stream, standby means no open node, and patch handles are distinct and issued |
| `AudioOutput.DirectStreamWins` | alsa/tinyalsa_hal.cpp:738-752 | a direct stream that starts leaves no non-direct stream active on its device, even if its own start fails, and touches no other direct stream and none on another device |
| `AudioOutput.HolderKeepsDevice` | alsa/tinyalsa_hal.cpp:753-779 | while a non-direct stream is active on a PCM device, no sequence of writes of other non-direct streams disturbs it or makes one of them active there |
| `AudioOutput.WriteStartsIff` | alsa/tinyalsa_hal.cpp:725-866 | a stream in standby that is written to becomes active, on the node of its kind, if and only if the node opens and it is direct, or there is no passthrough and no active stream on its PCM device |
| `AudioOutput.StartStatus` | alsa/tinyalsa_hal.cpp:725-866 | EBUSY, EINVAL, EIO and 0 are returned each for its one cause |
| `AudioOutput.ActiveWriteCounts` | alsa/tinyalsa_hal.cpp:1617-1652 | a write to an active stream touches no other; a good one clears the failure count, a bad one adds to it or gives a primary output up |
| `AudioOutput.PrimaryGivesUp` | alsa/tinyalsa_hal.cpp:1636-1652 | the primary output goes to standby with the failure after the hundredth consecutive one and not before |
| `AudioOutput.GivesUpIff` | alsa/tinyalsa_hal.cpp:1617-1652 | over any results of writes the primary output is given up if and only if more than a hundred in a row failed; one good write starts the count anew |
| `AudioOutput.FlushReopensIff` | alsa/tinyalsa_hal.cpp:1157-1192 | a flush leaves a PCM open if and only if it was and opens again, and changes nothing else |
| `AudioOutput.StandbyClosesIff` | alsa/tinyalsa_hal.cpp:1013-1066 | a standby call closes both nodes unless the card keeps the stream open |
| `AudioOutput.ReleaseDetachesOne` | alsa/tinyalsa_hal.cpp:3326-3358 | release succeeds if and only if a stream records the handle; it detaches one and leaves all others unchanged |
| `AudioOutput.ReleaseForgets` | alsa/tinyalsa_hal.cpp:3326-3358 | after the release of a handle other than NONE no stream records it |
| `AudioOutput.ReleaseNoneIff` | alsa/tinyalsa_hal.cpp:3326-3358 | releasing NONE succeeds if and only if some stream has no patch |
| `AudioOutput.ReleaseNoneStopsPlayback` | alsa/tinyalsa_hal.cpp:3326-3358 | a reachable state with a playing stream that was never patched: releasing NONE stops it and takes its device away |
| `AudioOutput.CreateTellsByHandle` | alsa/tinyalsa_hal.cpp:3220-3324 | without a handle every valid call returns 0; the handle stays NONE if and only if the stream named does not exist, and otherwise exactly that stream is patched under a new number |
| `AudioOutput.CreateHidesMismatch` | alsa/tinyalsa_hal.cpp:3254-3323 | with a handle, status and handle are the same for every valid call; the stream named is patched if it records the handle, and otherwise nothing changes |
| `AudioOutput.CreateRefusedIff` | alsa/tinyalsa_hal.cpp:3220-3253 | a call is refused, and changes nothing, if and only if it does not have one source and 1 to 16 sinks that join one device to one mix or one mix to devices |
| `AudioOutput.OutputMovesIff` | alsa/tinyalsa_hal.cpp:3296-3318 | patching an output puts it on the first sink, counts the sinks, and puts it in standby if and only if that is another device |
| `AudioOutput.CreateThenRelease` | alsa/tinyalsa_hal.cpp:3220-3358 | create followed by release of the new handle detaches the one input or output named and changes no other stream |
| `AudioOutput.InputStopsIff` | alsa/tinyalsa_hal.cpp:3254-3290 | in every reachable state a patch moves the input to the port's device and stops it if and only if the port type carries BIT_IN or names another device |
| `AudioOutput.InputsStartByReading` | alsa/tinyalsa_hal.cpp:2510-2560 | an input is opened in standby on its device, and only a read that starts it makes it active |
| `AudioOutput.AudioDevice.StartOutputStream` | alsa/tinyalsa_hal.cpp:725-866 | the two loops over the streams and the opening compute the arbitration function |
| `AudioOutput.AudioDevice.OutWrite` | alsa/tinyalsa_hal.cpp:1535-1657 | start, write accounting and the forced standby compute the write function |
| `AudioOutput.AudioDevice.OutFlush` | alsa/tinyalsa_hal.cpp:1157-1192 | only an open PCM is reopened, and it leaves standby only if that worked |
| `AudioOutput.AudioDevice.CreateAudioPatch` | alsa/tinyalsa_hal.cpp:3220-3324 | parameter checks, handle generation, lookup and rerouting compute the patch function |
| `AudioOutput.AudioDevice.ReleaseAudioPatch` | alsa/tinyalsa_hal.cpp:3326-3358 | outputs are searched before inputs and the first match is detached |
| `ExternalCamera.CropFailsIff` | external_camera/ExternalCameraUtils.cpp:417-444 | getCropRect fails if and only if the aspects are not close and the scaled side exceeds the input by a whole pixel |
| `ExternalCamera.CropRectIsCentred` | external_camera/ExternalCameraUtils.cpp:402-458 | the rectangle lies in the input, is even where it was cut, and its margins differ by 0 to 3 pixels |
| `ExternalCamera.CropRectKeepsAspect` | external_camera/ExternalCameraUtils.cpp:424-455 | the cut side is even and less than two pixels short of the exact aspect |
| `ExternalCamera.CropRectAcceptedIff` | external_camera/ExternalCameraUtils.cpp:170-194 | getCroppedLayout accepts it if and only if the sides that were not cut are even |
| `ExternalCamera.AllocatedSizeExactIff` | external_camera/ExternalCameraUtils.cpp:129-152 | the 32-bit size is that of three I420 planes if and only if three times the pixels fit |
| `ExternalCamera.AllocatedIffEven` | external_camera/ExternalCameraUtils.cpp:129-152 | a frame is allocated if and only if both sides are even |
| `ExternalCamera.LumaInItsPlane` | external_camera/ExternalCameraUtils.cpp:184-192 | through the layout each pixel of the rectangle is the pixel at that place of the luma plane |
| `ExternalCamera.CbAtHalvedPosition` | external_camera/ExternalCameraUtils.cpp:184-192 | its Cb sample is the one at the halved position of the second plane |
| `ExternalCamera.HalvedPositionFits` | external_camera/ExternalCameraUtils.cpp:184-192 | that position lies inside a chroma plane |
| `ExternalCamera.CrFollowsCb` | external_camera/ExternalCameraUtils.cpp:184-192 | its Cr sample lies exactly one chroma plane further on |
| `ExternalCamera.TrimKeeps` | external_camera/ExternalCameraDevice.cpp:817-852 | exactly the formats that can be cut from the largest one stay, YUYV only without MJPEG, still sorted |
| `ExternalCamera.SortedBySides` | external_camera/ExternalCameraDevice.cpp:791-822 | the formats are ordered by the side that is never cut, then by the other, so that the last one is the largest |
| `ExternalCamera.AspectsCompared` | external_camera/ExternalCameraUtils.cpp:333-339 | the comparisons by products are those of the aspect ratios themselves, with the tolerance of 0.025 |
| `ExternalCamera.CutFromIff` | external_camera/ExternalCameraDevice.cpp:824-840 | a format passes the aspect test if and only if getCropRect can cut it out of the largest size, unless that has only a few pixels |
| `ExternalCamera.KeptFormatsCroppable` | external_camera/ExternalCameraDevice.cpp:824-840 | getCropRect succeeds from the largest sorted size for every format kept |
| `ExternalCamera.LargestStaysIff` | external_camera/ExternalCameraDevice.cpp:843-850 | the largest size stays, as the last entry, if and only if it is not YUYV beside an MJPEG format |
| `ExternalCamera.KeptFromLargestKeptIff` | external_camera/ExternalCameraDevice.cpp:817-852 | every kept format can be cut from the largest one kept if and only if it fits into the last kept entry of the enumeration; so it is whenever the largest size stays |
| `ExternalCamera.LostLargestBreaksCropping` | external_camera/ExternalCameraDevice.cpp:843-850 | a concrete list for which it cannot |
| `ExternalCamera.TrimSupportedFormats` | external_camera/ExternalCameraDevice.cpp:791-853 | the two filtering loops compute the trimmed list |
| `ExternalCamera.ExternalCameraDevice.InitSupportedFormats` | external_camera/ExternalCameraDevice.cpp:966-1020 | the list chosen and the cropping type agree, every format of it can be cut that way from the largest size enumerated, from the largest one kept if and only if all fit into it, and the branches pick as documented |
| `YuvStrips.CompressNv12` | camera/YuvToJpegEncoder.cpp:571-612 | every row of every component of an NV12 image is submitted once and in order; all 16 luma pointers are set if and only if the image has a full strip |
| `YuvStrips.CompressYuyv` | camera/YuvToJpegEncoder.cpp:657-699 | every row of every component of a YUYV image is submitted once and in order |
| `YuvStrips.DeinterleaveNv12` | camera/YuvToJpegEncoder.cpp:614-630 | the chroma rows of a strip, within all buffer bounds |
| `YuvStrips.DeinterleaveYuyv` | camera/YuvToJpegEncoder.cpp:701-716 | the rows of a strip, within all buffer bounds |
| `YuvStrips.Nv12Restored` | camera/YuvToJpegEncoder.cpp:571-630 | re-interleaving the submitted rows gives back the luma plane and the chroma plane |
| `YuvStrips.YuyvRestored` | camera/YuvToJpegEncoder.cpp:657-716 | re-interleaving the submitted rows gives back the YUYV frame |
| `JpegBuilder.LengthField` | camera/JpegBuilder.cpp:376-378 | the two length bytes are the EXIF size plus 2 for every size up to 65533, also where the 16-bit subtraction wraps |
| `JpegBuilder.ScanFitsIff` | camera/JpegBuilder.cpp:387-390 | the scan stays inside a buffer if and only if it meets a marker, or the buffer goes on behind a final 0xff and is not empty |
| `JpegBuilder.MarkerIsDriOrDqt` | camera/JpegBuilder.cpp:341-390 | the scan stops exactly where a DRI or a DQT begins (ITU-T T.81, table B.1) |
| `JpegBuilder.JpegBuilder.FindTables` | camera/JpegBuilder.cpp:387-396 | finds the first DRI or DQT that lies in the image, or there is none, or the scan leaves the buffer, each exactly when that is so |
| `JpegBuilder.JpegBuilder.InsertEXIFAndJpeg` | camera/JpegBuilder.cpp:348-405 | overruns a buffer if and only if the size check passes and the EXIF data or the scan does not fit; succeeds otherwise if and only if the destination is large enough and a table marker exists; then head, EXIF data, image from its tables, untouched gap and EOI |
| `JpegBuilder.SplicedParses` | camera/JpegBuilder.cpp:372-402 | the output parses back to the EXIF data, the next segment is the image's DRI or DQT, and EOI is last (ITU-T T.81, section B.1.1.4) |
| `IspWrapper.CachesStayCoherent` | camera/ISPWrapper.cpp:613-676 | over any requests and refusals every cached setting is the sentinel or what the driver holds |
| `IspWrapper.SuccessIsIntended` | camera/ISPWrapper.cpp:613-884 | a request ends with 0 if and only if its value is in range and it is remembered, without force, or accepted by the driver; then exactly the one setting has the new value, and otherwise nothing has changed |
| `IspWrapper.SkippingRefinesWriting` | camera/ISPWrapper.cpp:770-788 | skipping redundant writes leaves the driver where always writing would |
| `IspWrapper.RecoverRestores` | camera/ISPWrapper.cpp:1029-1072 | save, reset and recovery bring the dewarp settings back if and only if the dewarp unit is on and the write accepted, or they are the defaults anyway; and each colour setting whose replay is accepted |
| `IspWrapper.RecoverDewarpIff` | camera/ISPWrapper.cpp:1036-1047 | afterwards the dewarp cache is right if and only if no write was needed or it was accepted |
| `IspWrapper.RecoverColourIff` | camera/ISPWrapper.cpp:1055-1065 | after a reset each colour cache is right if and only if it was never set, its replay was accepted or the default is the same |
| `IspWrapper.CacheIsLastAccepted` | camera/ISPWrapper.cpp:762-884 | after any requests each colour cache holds the last value accepted for it, which is legal, or what it held before |
| `IspWrapper.ResetCoherentIff` | camera/ISPWrapper.cpp:762-884 | after any requests since the first start and a reset without recovery, the caches are right if and only if the last value accepted for each setting is the default |
| `IspWrapper.FirstRecoveryIff` | camera/ISPWrapper.cpp:1033-1047 | a recovery before anything was saved changes the driver's dewarp settings if and only if they are not all zero and the write is accepted, and then clears mode, flips and bypass |
| `IspWrapper.MissedReadIff` | camera/ISPCameraDeviceHWLImpl.cpp:364-383 | when the start cannot read the parameters, no recovery writes them, and the cache is right if and only if the defaults equal what the driver held |
| `IspWrapper.UnreadFirstStart` | camera/ISPWrapper.cpp:51-57 | when the first read fails the cache is right if and only if the driver holds what the constructor put there |
| `IspWrapper.ISPWrapper.ProcessDewarp` | camera/ISPWrapper.cpp:613-642 | writes, rolls back on refusal, or skips |
| `IspWrapper.ISPWrapper.ProcessHFlip` | camera/ISPWrapper.cpp:643-659 | writes, rolls back on refusal, or skips |
| `IspWrapper.ISPWrapper.ProcessBrightness` | camera/ISPWrapper.cpp:762-791 | range check, skip, read and write back of the whole configuration |
| `IspWrapper.ISPWrapper.RecoverFeatures` | camera/ISPWrapper.cpp:1033-1072 | replays what was set, ignores every refusal and returns 0 |
| `IspWrapper.ISPWrapper.Process` | camera/ISPWrapper.cpp:248-328 | the settings present in a request are processed in the order of the source, none of the results being looked at; a raw capture only turns the dewarp unit off |
| `IspWrapper.RequestsIff` | camera/ISPWrapper.cpp:260-323 | exactly the settings that the request carries are asked for, each with its own value and never forced |
| `Resolutions.AdjustPreviewResolutions` | camera/CameraDeviceHWLImpl.cpp:397-436 | the in-place exchanges compute the adjusted table |
| `Resolutions.AdjustPermutes` | camera/CameraDeviceHWLImpl.cpp:397-414 | the entries are permuted and a widest one comes first |
| `Resolutions.HdBeforeXga` | camera/CameraDeviceHWLImpl.cpp:416-433 | where both occur 1280x720 comes before 1024x768 |
| `Resolutions.PaddingStays` | camera/CameraDeviceHWLImpl.cpp:397-436 | the zero padding stays behind the entries in use |
| `Resolutions.SizesOfFlat` | camera/CameraDeviceHWLImpl.cpp:397-436 | reading a flat table in pairs gives back the sizes it was made of |
| `Resolutions.BuildStreamConfig` | camera/CameraMetadata.cpp:384-486 | preview, picture, YUV and raw rows tile the array without gap or overlap; the length is exact unless both tables are empty, and the raw row lies past the array if and only if both are full |
| `Resolutions.FoundResolution` | camera/CameraDeviceHWLImpl.cpp:543-553 | true if and only if the size is in the table |
| `Resolutions.StreamCombJudge` | camera/CameraDeviceHWLImpl.cpp:560-590 | true if and only if every stream is an output with a size of its format's table |
| `Resolutions.SupportedIffListed` | camera/CameraDeviceHWLImpl.cpp:560-590 | a stream is supported if and only if it is an output with a format and some advertised configuration has its size and is a still picture or not as it is; any other one is refused |
| `Resolutions.AdvertisedIsSupported` | camera/CameraDeviceHWLImpl.cpp:560-590 | every advertised configuration is accepted, the raw one if and only if its size is a preview size |
| `Resolutions.AdjustKeepsSupport` | camera/CameraDeviceHWLImpl.cpp:397-436 | reordering the preview table changes no judgement |

## Left out

- Logical multi-camera capture: the single-camera branches of `CapAndFeed` and `HandleImage` are modelled; on a partial failure the other branch drops acquired buffers.
- Assumed of the framework in `CameraModel.Reachable`: frame numbers increase and requests name configured pipelines; `CameraTheorems.RunAccounts` and what follows it hold for any frame numbers.
- Assumed of the platform in the pipeline model: STREAMOFF, REQBUFS and all memory allocation succeed, including `malloc` in `CapAndFeed`; DQBUF, QBUF, select and a start may fail. `VideoStream.Stream` also lets STREAMOFF fail.
- Result of a failing `CapAndFeed`: it would leak the request vector; with a successful `malloc` it cannot fail in the single-camera branch.
- The 64-bit counters do not wrap in the model, and the polling waits are single polls that may be repeated.
- Contents of callbacks beyond frame number, kind and number of output buffers; result metadata, debug dumps, statistics and timestamps.
- `VideoStream::Stop`, the destructors and `Flush`: they add no further shared state to the protocol.
- A driver that exports a buffer of length zero: the error clean-up of `onDeviceStartLocked` skips such an entry; drivers are taken to export at least one byte. Buffer numbers above MAX_STREAM_BUFFERS are a precondition.
- Audio frames are abstract values: sample format conversion, channel expansion, auxiliary channels, muting and time stamps are not modelled; the overlapping `memcpy` calls are meant as `memmove`.
- The resampler: it is any client of `get_next_buffer` and `release_buffer` (`AudioCapture.ServedInOrder`); its output is not modelled.
- Effects consume at most what they are given; producing too much is modelled as the code handles it.
- IN_CALL mode, SCO and HFP threads, volume, gain curves, card selection and the validation of stream configurations in the audio HAL; opening a stream is modelled as its linking into the list.
- The external camera's aspect ratios are exact fractions; the rounding of `float` is not modelled. `std::sort` is any sorted order of the enumerated formats, frame rate lists and the V4L2 enumeration are left out.
- libjpeg: `jpeg_write_raw_data` is the reading of the rows inside the image and an advance of 16 lines. Images of odd width or height and `Yuv422SpToJpegEncoder`, which treats semi-planar data as packed, are left out.
- What a read or write past a buffer does in `InsertEXIFAndJpeg` and `createMetadata`: the model says when it happens and stops there.
- EXIF contents and the tightness of the gap that `InsertEXIFAndJpeg` leaves before the last EOI; that gap keeps what was in the destination buffer (`JpegBuilder.Spliced`). Sizes whose sum does not fit in 32 bits are excluded.
- AWB, exposure, gamma, lens shading and sharpening caches of ISPWrapper; contrast and saturation are real numbers, not floats.
- Frame durations in `createMetadata` are filled at the same indices as the configurations and are not repeated; `setMaxPictureResolutions` is left out.
- JSON, XML and property parsing, sysfs, dumpstate, image conversion back ends, DecoderDev and the Go build hooks: plumbing without a protocol of its own.
