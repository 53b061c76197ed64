# Verification of the HeIMDALL DAQ chain

HeIMDALL turns several synchronously clocked receivers into a coherent stream of IQ frames. Its processes form a
pipeline, receivers to rebuffer to decimator to delay synchronizer to IQ server and hardware controller, with a
feedback loop: the delay synchronizer and the hardware controller send commands back to the receiver process. This
project models that pipeline in Dafny and proves what keeps the stream coherent.

Each process appears twice. A module of functions on values says what one step does (`Rebuffer`, `RtlDaq`,
`HwController`, `DelaySync`, `Shmem`, `Ini`, `HeaderCodec`, `Decimator`), and laws are lemmas over steps and whole
runs of these functions, which say of every output and every observable change of state what it is in terms of the
inputs. A module named `...Process` holds the process as the source has it, an object or a set of buffers updated in
place by loops, and every method's contract equates the new state and the output with the function.

What is proved, hardest first:

- **Control loop** (`ControlLoop`, `NoiseHandshake`, `UserGains`, `CalibrationLoop`, `LoopSafety`, `NoiseLimits`,
  `WaitEnds`). The receiver process, an unbounded queue of frames in flight, the delay synchronizer and the hardware
  controller are composed; frames may be lost anywhere. In every run the frames in flight carry the noise state the
  controller believes in, or switch to it once, and the user's gains survive calibration, exactly in these
  configurations: bursts are off, or at least two frames apart without a user's approval; or the correlation window is
  not a multiple of 1024 samples; or IQ calibration is off and DATA frames are shorter than the window and no multiple
  of 1024 samples. In the first kind this holds however frames are stamped. In all of them the controller's wait for a
  switch ends with the first frame sent after its commands have taken effect.
- **Switching** (`SourceSwitching`, `SourceDelivery`). On every frame that agrees with the controller the noise switches
  ordered are characterised exactly, in all three track modes, bursts included, and so are the commands sent with
  them. In the closed loop a frame in lock leads to a receiver process with the source off and the user's gains
  ordered, a frame below the lock to one with the source on; and the user's AGC state survives calibration.
- **Purity** (`DummyWindow`, `RebufferCoherence`, `Purity`, `Capture`, `CaptureLimits`, `CapturePurity`). No setting is
  changed between the DAQ frames that one output frame is made of, and all of them were sent with the settings its
  header reports, whatever commands arrive and whatever the buffer sizes are. With the acquisition rings composed, a
  block sent was complete before any later change, and had not begun at an earlier one if the dummy frames promised
  after it cover its receiver's lag. They cover a lag of 4 blocks, after the reset of a rate correction 3, and not one
  more.
- **Rebuffer** (`RebufferFifo`, `RebufferLimits`, `RebufferOverdrive`). The rings refine a FIFO per channel, have room
  for the next block and send at the exact rate. Streams are sent in order exactly when no output frame is smaller
  than a DAQ block.
- **Shared memory and chains** (`ShmemSafety`, `Chain`, `ChainProgress`). The two-buffer handshake refines a queue of
  capacity two; linear chains of any length, of blocks with a state of their own, never block and deliver every frame
  before they stop.
- **Synchronizer** (`TrackLoss`, `SyncOrder`, `Correlation`, `DelayEstimate`, `ReferenceChannel`, `Corrections`,
  `SyncFlags`). The fail counter is a reflected walk, no calibration state is skipped on the way to "track", and the
  delay estimate is exact for moved signals, which are handled exactly if the frame fills the window and every move
  leaves room behind its peak. Each correction goes the right way in proportion to its delay, and none is ordered
  exactly if none is needed; flags on a frame are earned by an alignment and a lock before it; the statistics count
  what they are named for; and one frequency is tracked from the end of the lock on.
- **Gain tuning** (`GainTuning`, `GainSearch`): over runs of the controller, tuning changes gains a bounded number of
  times, settled channels never rise, and the phase ends exactly after enough clean frames in a row. On frames that
  report the gains sent every channel stops tuning; and if each is overdriven from some gain above the lowest on, the
  phase ends with the largest gains at which none is, each channel's own or one for all.
- **Receiver settings** (`ReceiverSettings`): a command that none of its kind overtakes is carried out with the next
  frame on every receiver whose hardware call succeeds, nothing else changes, and every header until the next change
  reports it; frames are numbered without a gap.
- **Acquisition rings** (`AcquisitionRing`), **ini parser** (`Ini`, `IniRoundTrip`), **header codec** (`StructCodec`,
  `HeaderCodec`, `HeaderLayout`, `Utf8Texts`) and **decimator** (`Decimator`, `DecimatorRun`).

Where the code does not do what one would claim of it:

- The shipped configuration has DAQ blocks of 262144 samples and calibration frames of 65536; the configuration
  checker compares blocks with CPI frames only (Firmware/ini_checker.py:219-221). Calibration streams then overrun the
  rings: `RebufferLimits.ShippedConfigOverruns`. Channels stay coherent with one another even then.
- The dynamic range of a correlation peak is read 100 entries behind it (Firmware/_daq_core/delay_sync.py:549-550). A
  channel moved by N - 100 samples or more, N the window length, puts this past the end of the array: an IndexError
  ends the synchronizer. So does a ValueError on a DATA frame shorter than the window, which the configuration checker
  does not rule out (Firmware/ini_checker.py:237-240): `DelayEstimate.HandledExactlyWhenRoom`.
- The estimate of fractional delays has a row for each whole block of 1024 samples and fills one for each block begun
  (Firmware/_daq_core/delay_sync.py:398-401). On a frame that is no multiple of 1024 samples an IndexError ends the
  synchronizer: `SyncOrder.FrameIsStamped`. With such a window calibration never succeeds; the shipped one has 65536.
- The IQ calibration state tests the tolerance of one channel only, through a loop variable left over from the state
  before: always the last but one, `SyncOrder.OneChannelIsTested`.
- Fractional delays are measured against channel 0 and corrected on all others, whichever the standard channel is; with
  another one the standard channel is itself corrected, unless no frame is made of whole blocks:
  `ReferenceChannel.StandardIsSparedExactly`.
- With a calibration frame interval of one, or with the lock approval, track mode 2 can order the noise source off and
  on again on one frame, or on while it is on, which overwrites the user's gains kept aside:
  `NoiseLimits.HandshakeHoldsExactlyWhenSafe`, `NoiseLimits.GainsSurviveExactlyWhenSafe`. In the failing run the track
  is lost on the calibration frames in flight at the end of a burst, and the ones behind them start a calibration that
  goes on on DATA frames; the controller orders the source on while these carry the synchronizer back to its track
  state, and the next calibration frames are stamped "track" with no burst counted. The shipped settings, an interval
  of 687 without approval, are sound.
- A receiver 5 or more blocks ahead when a change is applied can have a block begun before the change in the first
  frame with samples: `CaptureLimits.PromiseIsExact`. Nothing in the acquisition loop bounds this lag.
- The check for a whole lap in the acquisition loop stops a receiver that is a multiple of eight blocks ahead, and no
  other (`AcquisitionRing.CheckStopsExactly`); nine blocks ahead, frame 0 carries block 8:
  `AcquisitionRing.OverrunIsSent`.
- An overdrive that persists at the lowest gain keeps the controller in its tuning phase for ever, so that calibration
  never starts: `GainTuning.OverdriveNeverEnds`.
- A gain request ends the AGC only while the noise source is off (Firmware/_daq_core/hw_controller.py:330-341): during
  calibration it stores the gains and leaves the AGC state kept aside, which comes back with them:
  `SourceDelivery.AgcSurvives`.
- Gain and AGC commands that reach the receiver process between two frames are carried out gain first, whichever
  came first (Firmware/_daq_core/rtl_daq.c:745-779). The receiver ends in the mode asked for last if and only if no
  gain command follows the last AGC command: `ReceiverSettings.LastModeExactly`.
- In the ini parser a blank line is a comment because the search for a comment prefix also finds the end of the
  string; the outcome is the same.

To verify the project: `dafny verify dfyconfig.toml`.

## Model

| member | source | states |
|---|---|---|
| RebufferFifo.RunIsFifo | Firmware/_daq_core/rebuffer.c:205-349 | for any mix of frames, per channel, the payloads sent since the last dummy frame followed by the ring's available bytes from the write offset on, wrapping, are the blocks received since then |
| RebufferFifo.RunKeepsRoom | Firmware/_daq_core/rebuffer.c:142-152 | in every run the read offset is the write offset plus the available bytes around the ring, less than the larger output frame is available, and there is room for one more block |
| RebufferFifo.StepFifo | Firmware/_daq_core/rebuffer.c:205-349 | one frame appends its block to each channel's stream and what is sent comes off the front |
| RebufferFifo.ReceiveFifo | Firmware/_daq_core/rebuffer.c:205-254 | receiving a sampled frame extends the window of every channel by its block and keeps what was held |
| RebufferFifo.EmitFifo | Firmware/_daq_core/rebuffer.c:285-340 | the straight and the wrapped two-chunk copy both take exactly the front of the window |
| RebufferLimits.BurstConserves | Firmware/_daq_core/rebuffer.c:241-245 | over a run of frames of one type every byte was sent or is available, and less than one frame is left |
| RebufferLimits.BurstRate | Firmware/_daq_core/rebuffer.c:285-349 | k frames of one type after a reset send exactly floor(k * in / out) frames |
| RebufferLimits.SmallFramesOverrun | Firmware/_daq_core/rebuffer.c:285-340 | a frame type smaller than a block has a run that is sent out of order |
| RebufferLimits.InOrderIffBlocksFit | Firmware/_daq_core/rebuffer.c:142-152 | every run is sent in order if and only if the block is no larger than the CPI and the calibration frame |
| RebufferLimits.ShippedConfigOverruns | Firmware/daq_chain_config.ini:14-30 | the shipped sizes are on the failing side |
| RebufferCoherence.PayloadIsCoherent | Firmware/_daq_core/rebuffer.c:207-338 | for any sizes, overruns included, position p of every channel of a payload holds that channel's value at one common input frame and offset, no older than the last dummy frame, or a reset zero |
| RebufferCoherence.RunRelated | Firmware/_daq_core/rebuffer.c:205-349 | a run on samples and a run on the origins of samples stay related cell by cell |
| RebufferOverdrive.SentFlags | Firmware/_daq_core/rebuffer.c:247-309 | a flag of a sent frame is set exactly if it was set in a sampled frame since the last frame with samples |
| RebufferOverdrive.FlagOrBit | Firmware/_daq_core/rebuffer.c:248 | the accumulated flag word has a bit exactly if one of the two words has it |
| RebufferHeaders.StepSends | Firmware/_daq_core/rebuffer.c:262-311 | a frame is sent exactly if enough bytes are held for its type; its header has their length, the flags gathered and the time of the bytes left behind, rounded to milliseconds, taken off its stamp, and every other field as received |
| RebufferHeaders.ReceiveBooks | Firmware/_daq_core/rebuffer.c:205-254 | what each kind of frame books: a block and the next place in the ring, a single byte if it has no samples, nothing for other types, and a cleared ring on dummy frames |
| RebufferHeaders.RingsAreSmallest | Firmware/_daq_core/rebuffer.c:142-152 | one block less and the rings could not hold the larger frame and a block with room to spare |
| RebufferProcess.Rebuffering.constructor | Firmware/_daq_core/rebuffer.c:142-153 | rings sized and zeroed as the configuration demands |
| RebufferProcess.Rebuffering.ReceiveFrame | Firmware/_daq_core/rebuffer.c:205-254 | the rings, offsets and flags in place become what receiving gives |
| RebufferProcess.Rebuffering.WritePayload | Firmware/_daq_core/rebuffer.c:313-338 | the sink buffer holds the payload of every channel at its offset, copied in one or two chunks |
| RebufferProcess.Rebuffering.SendFrame | Firmware/_daq_core/rebuffer.c:260-349 | the frame written to the sink and the state left are those of emission |
| RebufferProcess.Rebuffering.ProcessFrame | Firmware/_daq_core/rebuffer.c:180-350 | one turn of the loop in place is one step of the model |
| Memory.FRead | Firmware/_daq_core/rebuffer.c:213 | a stream read overwrites exactly its stretch of the buffer |
| Memory.MemCpy | Firmware/_daq_core/rebuffer.c:321-335 | a block copy overwrites exactly its stretch of the destination |
| Memory.MemSet | Firmware/_daq_core/rebuffer.c:230 | every cell gets the value |
| DummyWindow.DummyFramesSeparate | Firmware/_daq_core/rtl_daq.c:69-281 | for any arrival order of commands at least 4 dummy frames lie between an applied change and the next frame with samples, 3 for the reset of a rate correction |
| DummyWindow.PendingMeansDummy | Firmware/_daq_core/rtl_daq.c:656-673 | while any request is pending the next frame is a dummy frame |
| DummyWindow.RunKeepsWindow | Firmware/_daq_core/rtl_daq.c:197-281 | the invariant of the window and the promise of dummy frames over every run |
| DummyWindow.RunKeepsSettings | Firmware/_daq_core/rtl_daq.c:638-705 | in every run two frames with samples and no dummy frame between them report the same settings |
| ReceiverSettings.CommandIsCarriedOut | Firmware/_daq_core/rtl_daq.c:197-281 | a command after which no other of its kind arrives is carried out with the next frame: frequency, gain, AGC and rate correction on every receiver whose hardware call succeeds, the noise state in the frame's header |
| ReceiverSettings.TurnSets | Firmware/_daq_core/rtl_daq.c:727-812 | each logged change sets its own setting of each receiver, to the value read back or ordered, exactly where the call succeeds; a failed call and every other setting leave the receiver as it was |
| ReceiverSettings.ChangesAreReported | Firmware/_daq_core/rtl_daq.c:643-738 | after a turn that retunes every receiver to a frequency every header reports it until the next change of frequency, and likewise each gain |
| ReceiverSettings.RunKeeps | Firmware/_daq_core/rtl_daq.c:632-812 | in any run a setting stays until its own change is logged, and every header reports it |
| ReceiverSettings.CorrectionIsReset | Firmware/_daq_core/rtl_daq.c:781-810 | the correction ordered is in force with the next frame; with the one after it goes back to zero exactly if it is below the keep limit and the call succeeds |
| ReceiverSettings.FramesAreNumbered | Firmware/_daq_core/rtl_daq.c:632-705 | the frames of any run carry consecutive block indices modulo 2^32 and the configured fields unchanged |
| ReceiverSettings.LastModeExactly | Firmware/_daq_core/rtl_daq.c:745-779 | of gain and AGC commands between two frames the mode asked for last wins if and only if no gain command follows the last AGC command |
| ReceiverSettings.HaltEndsTheLoop | Firmware/_daq_core/rtl_daq.c:601-625 | once a halt has arrived the main loop goes round once more at the most, and then sends nothing and changes no receiver |
| ReceiverSettings.FirstFrame | Firmware/_daq_core/rtl_daq.c:601-705 | the first frame of a process that was sent nothing is a DATA frame with index 0 and the configured settings, and nothing is changed |
| ReceiverSettings.RunsOn | Firmware/_daq_core/rtl_daq.c:601-625 | without a halt it never ends |
| RtlDaqProcess.Daq.MainLoopTurn | Firmware/_daq_core/rtl_daq.c:625-864 | one turn in place is one step of the model, frame first and changes after it, also when a halt arrived while the loop was waiting |
| Purity.OutputIsPure | Firmware/_daq_core/rebuffer.c:222-349 | each sample of a rebuffer frame was sent with the type, noise state, gains and frequency in the frame's header, and no change was applied from its DAQ frame to the last |
| Purity.StretchIsPure | Firmware/_daq_core/rtl_daq.c:656-705 | frames with no dummy frame among them have no change among them and equal settings |
| Purity.SentHeaderKeeps | Firmware/_daq_core/rebuffer.c:302-310 | a sent header keeps type, noise state, gains and frequency of the frame it was sent on |
| Capture.SettingsReachBlocks | Firmware/_daq_core/rtl_daq.c:601-864 | in every interleaving of commands, callbacks and main loop: a sent block was complete before any later change, and had not begun at an earlier change if its receiver was then no further ahead than the 4 or 3 dummy frames promised; and it is the frame's own block exactly if the receiver was at most a ring ahead |
| Capture.StepKeeps | Firmware/_daq_core/rtl_daq.c:197-864 | every step keeps the dummy window, consecutive indices, complete blocks behind every sent frame, and the kind of frame the flags ask for |
| CaptureLimits.PromiseIsExact | Firmware/_daq_core/rtl_daq.c:612-705 | for every kind of change a lag is harmless in every run if and only if it is at most 4, or 3 for the reset of a rate correction |
| CaptureLimits.ReceivedTooEarly | Firmware/_daq_core/rtl_daq.c:612-705 | a run for every kind of change in which the first frame with samples carries a block begun before it |
| CapturePurity.SamplesAreReceivedPure | Firmware/_daq_core/rebuffer.c:222-349 | end to end: the header of a rebuffer frame reports the settings of the DAQ frame of each of its samples, and the block of that frame was complete before any later change and had not begun at an earlier one whose lag the promised dummy frames cover |
| ShmemSafety.BuffersHaveOneOwner | Firmware/_daq_core/sh_mem_util.c:60-143 | in every interleaving each buffer is in exactly one of producer-free, forward FIFO, held by consumer, backward FIFO, and the one being written is never announced to or held by the consumer |
| ShmemSafety.FramesArriveInOrder | Firmware/_daq_core/sh_mem_util.c:60-143 | frames arrive unchanged and in order, termination only after all of them |
| ShmemSafety.FramesAreAccountedFor | Firmware/_daq_core/sh_mem_util.c:82-131 | attempts are delivered, in flight, being written or counted as dropped |
| ShmemSafety.DropIffConsumerOwnsBoth | Firmware/_daq_core/sh_mem_util.c:93-105 | a frame is dropped exactly when the consumer side owns both buffers, and only in drop mode |
| ShmemSafety.WaitsIffConsumerOwnsBoth | Firmware/_daq_core/sh_mem_util.c:82-131 | in blocking mode an idle producer waits exactly while the consumer side owns both buffers |
| ShmemSafety.SignalsAreDecoded | Firmware/_daq_core/sh_mem_util.c:132-143 | each signal is decoded to its own buffer, the end to the end, every other byte to an error |
| ShmemSafety.UnknownSignalFreesNothing | Firmware/_daq_core/shmemIface.py:112-132 | a byte on the way back that is no signal is consumed and frees no buffer: the C call fails, the Python call asks for a drop that it does not count |
| ShmemSafety.BothProducersAgree | Firmware/_daq_core/shmemIface.py:112-132 | the Python and the C producer take the same buffer in every reachable state |
| ShmemSafety.HandshakeIsBoundedQueue | Firmware/_daq_core/sh_mem_util.c:60-143 | every action is a step of a queue of capacity two or leaves it alone |
| ShmemProcess.ShmemTransfer.WaitForFree | Firmware/_daq_core/sh_mem_util.c:82-131 | return code, flags, FIFO and drop counter in place |
| ShmemProcess.ShmemTransfer.SendCtrBuffReady | Firmware/_daq_core/sh_mem_util.c:60-67 | the buffer is no longer free and its signal is announced |
| ShmemProcess.ShmemTransfer.SendCtrBuffFree | Firmware/_daq_core/sh_mem_util.c:68-73 | the buffer's signal goes back |
| ShmemProcess.ShmemTransfer.WaitBuffReady | Firmware/_daq_core/sh_mem_util.c:132-143 | the oldest signal is taken and decoded |
| ShmemProcess.OutShmemIface.WaitForFree | Firmware/_daq_core/shmemIface.py:112-132 | the same call of the Python producer |
| ShmemProcess.OutShmemIface.SendCtrBuffReady | Firmware/_daq_core/shmemIface.py:87-95 | the same call of the Python producer |
| Chain.StepKeeps | Firmware/_daq_core/fir_decimate.c:222-341 | every step of any block of a chain keeps the whole chain's invariant |
| ChainProgress.ChainNeverBlocks | Firmware/_daq_core/sh_mem_util.c:82-143 | in every reachable state of a chain of any length some process can step unless all are done, each block holding its input while it acquires its output |
| ChainProgress.ChainTerminates | Firmware/_daq_core/fir_decimate.c:222-343 | every schedule is finite, with a bound known before it starts |
| ChainProgress.ChainDelivers | Firmware/_daq_core/sh_mem_util.c:55-143 | the sink has a prefix of the frames at all times and all of them when nothing can step, each made by every block in turn from its own state after the frames before |
| HwControllerProcess.HWC.NearestCalFreq | Firmware/_daq_core/hw_controller.py:374 | the first calibration frequency at the smallest distance |
| HwControllerProcess.HWC.HandleFrame | Firmware/_daq_core/hw_controller.py:439-570 | one frame in place is one step of the model, and the commands sent are its commands in order |
| GainTuning.TuneLowersPotential | Firmware/_daq_core/hw_controller.py:276-307 | a tuning call that changes gains or flags lowers the sum of 58 - g over tuning and g over other channels, in both gain control modes |
| GainTuning.TuningTerminates | Firmware/_daq_core/hw_controller.py:456-504 | whatever the headers report and whatever is requested, in any run from the start at most 58 frames per channel change gains or tuning flags |
| GainTuning.ChangesAreBounded | Firmware/_daq_core/hw_controller.py:456-504 | along any run the frames that change gains or flags and the potential left never exceed the potential at the start |
| GainTuning.SettledNeverRises | Firmware/_daq_core/hw_controller.py:287-504 | in any run, for as long as tuning lasts, a channel whose tuning flag is clear never gains again and stays clear |
| GainTuning.LockNeedsCleanFrames | Firmware/_daq_core/hw_controller.py:484-504 | once no channel is tuning, the frames still missing for the lock end the tuning phase if and only if each is free of overdrive |
| GainTuning.OverdriveNeverEnds | Firmware/_daq_core/hw_controller.py:284-500 | an overdrive on every frame at the lowest gain keeps the phase from ending in runs of any length |
| GainTuning.FrameKeepsUniform | Firmware/_daq_core/hw_controller.py:456-504 | under unified control gains and flags stay uniform for as long as tuning lasts |
| GainTuning.CalibrationGoesOn | Firmware/_daq_core/hw_controller.py:509-557 | calibration never leads back to tuning |
| GainSearch.FrameTunes | Firmware/_daq_core/hw_controller.py:276-307 | on a frame that reports the gains sent a tuning channel rises by exactly one gain or stops at the highest, an overdriven one falls by one and stops, every other keeps its gain; under unified control an overdrive on any channel is one on all; exactly the new gains are sent |
| GainSearch.UnreportedIsSkipped | Firmware/_daq_core/hw_controller.py:282-285 | a frame that does not report the gains sent changes none |
| GainSearch.FrameLowers | Firmware/_daq_core/hw_controller.py:276-307 | on every such frame on which a channel is tuning, or overdriven above the lowest gain, the potential falls strictly |
| GainSearch.TuningStops | Firmware/_daq_core/hw_controller.py:456-504 | in every run from the start, whatever overdrives are reported, no channel is tuning after 116 frames per channel and two more that report the gains sent |
| GainSearch.TuningFindsLargestGains | Firmware/_daq_core/hw_controller.py:276-504 | if each channel is overdriven from some gain above the lowest on, the tuning phase ends in every long enough run of frames that report the gains sent, in the calibration state and with the largest gains at which no channel is overdriven, in both gain control modes |
| ControlLoop.CommandsFit | Firmware/_daq_core/hw_controller.py:439-570 | every gain command has one value per receiver |
| NoiseHandshake.FramesFollowController | Firmware/_daq_core/hw_controller.py:509-570 | in every run of a sound configuration, however frames are stamped and lost, outside the wait state all frames in flight carry the controller's noise state, inside it old ones come before new ones; the burst counter is past the interval only with the source on and between 1 and the interval only with it off |
| NoiseHandshake.RunKeepsHandshake | Firmware/_daq_core/hw_controller.py:352-401 | the same invariant over frames, the receiver process and switches on their way, kept by every step of every run |
| NoiseHandshake.CalibrationEffect | Firmware/_daq_core/hw_controller.py:511-548 | following the synchronizer and counting bursts together switch the source at most once per frame |
| SourceSwitching.SwitchesExactly | Firmware/_daq_core/hw_controller.py:511-548 | on every frame that agrees with the controller, in all track modes: the source is ordered on exactly below the lock while it is off, off exactly in lock while it is on and approved, outside bursts; on where a burst starts, off where it ends; and the controller waits exactly if it has switched |
| SourceSwitching.LockSwitchesOff | Firmware/_daq_core/hw_controller.py:383-399 | the switch off is followed by the gains kept aside, unified if so configured, and by the AGC exactly if it was on; they are in force again |
| SourceSwitching.LossSwitchesOn | Firmware/_daq_core/hw_controller.py:366-382 | the switch on follows the gain for the nearest calibration frequency on every channel; gains and AGC are kept aside |
| SourceSwitching.BurstIsCounted | Firmware/_daq_core/hw_controller.py:535-548 | the burst counter counts the frames stamped "track" and starts over on others and at the end of a burst, and what a burst's switches send |
| SourceSwitching.RequestIsServed | Firmware/_daq_core/hw_controller.py:309-349 | a request is served behind the switches of its frame: tuned, or gains sent and AGC ended, or stored while the source is on; a list with an unsupported gain sends nothing |
| SourceSwitching.RequestsWait | Firmware/_daq_core/hw_controller.py:550-557 | in the other states, and on dummy frames, a request is left alone |
| SourceSwitching.UnsupportedIsStoredPartly | Firmware/_daq_core/hw_controller.py:330-345 | a gain list with an unsupported value is stored up to that value, not sent, and leaves the AGC alone |
| SourceDelivery.LockReleasesSource | Firmware/_daq_core/hw_controller.py:511-533 | in every run of a safe configuration, in all track modes: a frame in lock at the head, with the source on and no burst boundary, leads to a receiver process with the source off and the gains kept aside ordered once the commands are delivered, in any interleaving; it then sends dummy and DATA frames |
| SourceDelivery.LossStartsSource | Firmware/_daq_core/hw_controller.py:511-518 | and a frame below the lock with the source off to one with the source on, which sends dummy and calibration frames |
| SourceDelivery.AgcSurvives | Firmware/_daq_core/hw_controller.py:330-399 | in every run of a safe configuration the AGC state chosen by the requests is in force whenever the source is off, and kept aside with the AGC off whenever it is on |
| NoiseHandshake.TurnKeeps | Firmware/_daq_core/rtl_daq.c:654-676 | a turn of the receiver process repeats its noise state at the end of the queue |
| NoiseHandshake.DeliverKeeps | Firmware/_daq_core/rtl_daq.c:256-277 | a delivered switch turns the next frame's state and no frame in flight |
| CalibrationLoop.FrameLeads | Firmware/_daq_core/delay_sync.py:501-749 | which state a frame of the configured size leads to, by its type: sample calibration handles a DATA frame only if it fills the window, fractional calibration a frame only if it is made of whole blocks |
| LoopSafety.MarkStalls | Firmware/_daq_core/delay_sync.py:389-401 | with a window that is no multiple of 1024 the source is never switched off again once calibration has begun, and no frame is stamped beyond fractional calibration |
| LoopSafety.MarkBlinds | Firmware/_daq_core/delay_sync.py:491-499 | without IQ calibration and with DATA frames too short and uneven, stamping a frame keeps: no calibration frame is or will be stamped "track" while the source is on and no burst is counted |
| LoopSafety.ControlBlinds | Firmware/_daq_core/hw_controller.py:511-548 | and so does every frame that the controller handles |
| LoopSafety.LoopStepKeeps | Firmware/_daq_core/delay_sync.py:501-781 | every step of the closed loop, frames stamped in order by the synchronizer, keeps handshake and gains in every safe configuration |
| NoiseLimits.RiskIsReachable | Firmware/_daq_core/hw_controller.py:509-570 | in track mode 2, in every configuration in which the synchronizer can calibrate across the end of a burst, a run leads to calibration with the source on, calibration frames stamped "track", and no burst counted |
| NoiseLimits.HandshakeBreaks | Firmware/_daq_core/hw_controller.py:511-548 | in every configuration that is not safe a run ends with frames in flight that do not follow the controller |
| NoiseLimits.GainsBreak | Firmware/_daq_core/hw_controller.py:366-399 | and one with the calibration gains in place of the user's |
| NoiseLimits.HandshakeHoldsExactlyWhenSafe | Firmware/_daq_core/hw_controller.py:509-570 | the frames in flight follow the controller in every reachable state of the closed loop if and only if bursts are off, or have an interval of at least 2 and no lock intervention, or the window is no multiple of 1024, or IQ calibration is off and DATA frames are shorter than the window and no multiple of 1024 |
| NoiseLimits.GainsSurviveExactlyWhenSafe | Firmware/_daq_core/hw_controller.py:366-399 | the user's gains are in force or kept aside in every reachable state if and only if the same holds |
| WaitEnds.WaitIsOver | Firmware/_daq_core/hw_controller.py:561-570 | in every run of a safe configuration in which the hardware takes the gains: once the controller's commands are delivered and the dummy window is over, the next frame sent, unless it is lost, ends the wait for a switch |
| WaitEnds.NextIsAwaited | Firmware/_daq_core/hw_controller.py:561-570 | such a frame reports the noise state and the gains of the controller |
| WaitEnds.AwaitedEndsWait | Firmware/_daq_core/hw_controller.py:561-570 | the wait ends on exactly the frames with samples that report the controller's noise state and gains; nothing is sent meanwhile |
| UserGains.UserGainsSurvive | Firmware/_daq_core/hw_controller.py:331-399 | in every run of a sound configuration the gains in force are the last chosen ones, unified if so configured, whenever the noise source is off; they are kept in last_gains whenever it is on; and with all commands delivered the receiver process has been told the gains in force |
| UserGains.StepKeepsGains | Firmware/_daq_core/hw_controller.py:366-399 | every step of the loop keeps this |
| UserGains.OverwriteSupported | Firmware/_daq_core/hw_controller.py:331-341 | a request of supported values stores exactly their indices |
| DelaySyncProcess.DelaySynchronizer.HandleFrame | Firmware/_daq_core/delay_sync.py:472-781 | one frame in place is one step of the model: state, counters, IQ corrections, stamps and rate correction, or the end by an error |
| DelaySyncProcess.DelaySynchronizer.BlocksFit | Firmware/_daq_core/delay_sync.py:398-401 | the loop over the blocks stays inside its rows exactly if the frame is a multiple of 1024 samples |
| TrackLoss.CounterIsReflectedWalk | Firmware/_daq_core/delay_sync.py:724-758 | after every frame of every run the fail counter is the maximum over suffixes of checked frames since the last reset of fails minus passes, is in 0 to the limit, and is 0 outside the track state |
| TrackLoss.TrackLostExactlyAtLimit | Firmware/_daq_core/delay_sync.py:730-747 | in every run the track state is left exactly when the frequency changed or that maximum, this frame included, reaches the limit |
| SyncOrder.StampsInOrder | Firmware/_daq_core/delay_sync.py:501-749 | in every run, between a stamp and a later higher one every stamp in between occurs |
| SyncOrder.FrameIsStamped | Firmware/_daq_core/delay_sync.py:501-781 | a frame is stamped with the state it finds and the next state may follow it, unless it ends the process: exactly sample calibration on a short frame or a peak too far behind, and fractional calibration on a frame not made of whole blocks |
| SyncOrder.ScanDecides | Firmware/_daq_core/delay_sync.py:544-568 | the scan raises an error exactly if a peak too far behind comes before any that does not stand out; otherwise sync is found exactly if every peak stands out at lag zero, and a correction is ordered exactly if every peak stands out and one is elsewhere |
| SyncOrder.ScanRecords | Firmware/_daq_core/delay_sync.py:559-563 | each matched channel gets its delay and correction, the reference channel keeps its own |
| SyncOrder.OneChannelIsTested | Firmware/_daq_core/delay_sync.py:605-654 | in every run the channel variable stands at the last but one channel in the IQ calibration state |
| SyncOrder.LockTestsOneChannel | Firmware/_daq_core/delay_sync.py:642-670 | in every run track lock is reached exactly if the dynamic range suffices and that one channel is in tolerance |
| SyncOrder.CorrectionOpposesDelay | Firmware/_daq_core/delay_sync.py:559-563 | a correction is bounded by the limit, opposes its delay and vanishes only with it |
| SyncOrder.CorrectionGrows | Firmware/_daq_core/delay_sync.py:101-103 | a larger delay never gets a smaller correction |
| Corrections.FractionalOrder | Firmware/_daq_core/delay_sync.py:594-619 | on a frame of whole blocks nothing is ordered, and IQ calibration follows, exactly if every fractional delay is within tolerance; otherwise channel 0 is not corrected and every other is corrected the way of its delay and in proportion to it if that is out of tolerance, and not at all if it is within |
| Corrections.FractionalOrderGrows | Firmware/_daq_core/delay_sync.py:605-608 | the order is odd in the delays and grows with a delay |
| Corrections.WholeOrder | Firmware/_daq_core/delay_sync.py:544-581 | if every peak stands out nothing is ordered, and fractional calibration follows, exactly if all stand at lag zero; otherwise every channel but the standard one is corrected against its delay, at the rate of its range and within the limit |
| Corrections.WeakPeakDecidesNothing | Firmware/_daq_core/delay_sync.py:551-556 | a frame with a peak that does not stand out is stamped, unflagged, and repeats sample calibration without an order |
| Corrections.LengthsHandled | Firmware/_daq_core/delay_sync.py:488-498 | the samples looked at are all of a calibration frame and at most the window of any other if the configured frames hold one; sample calibration ends the process on less than a window, fractional calibration exactly on broken blocks |
| SyncFlags.FrameIsFlagged | Firmware/_daq_core/delay_sync.py:527-749 | which flags a frame gets, by its stamp and what was measured on it |
| SyncFlags.StampDecides | Firmware/_daq_core/delay_sync.py:501-688 | and to which state it leads, by its stamp and flags |
| SyncFlags.FlagsAreEarned | Firmware/_daq_core/delay_sync.py:527-749 | in every run a frame flagged sample synchronous found the channels aligned or comes after one that did with no start and no failed sample calibration since; one flagged IQ synchronous is the lock or comes after it with no IQ calibration since |
| SyncFlags.CountersCount | Firmware/_daq_core/delay_sync.py:580-747 | in every run the three statistics are the numbers of frames found aligned, of updates of the IQ corrections and of failed checks |
| SyncFlags.FrameCorrects | Firmware/_daq_core/delay_sync.py:503-691 | the IQ corrections start over from the adjustment on a frame stamped "init", are multiplied by the adjusted differences on a frame out of tolerance and otherwise stay; so does the reference, taken at the lock or at its end |
| SyncFlags.OneFrequencyIsTracked | Firmware/_daq_core/delay_sync.py:680-747 | in every run, while the synchronizer tracks, every frame since the DATA frame that ended the lock has its frequency |
| SyncFlags.WaitFollowsNumbers | Firmware/_daq_core/delay_sync.py:586-590 | while it waits for a correction the synchronizer only follows the frame numbers, up to the first gap |
| SyncFlags.DummyEndsWait | Firmware/_daq_core/delay_sync.py:754-764 | a dummy frame ends the wait, clears the fail counter and changes nothing else |
| Correlation.CircularIsLinear | Firmware/_daq_core/delay_sync.py:534-541 | entry k of the padded circular correlation is the linear correlation at lag k - N, without wrap-around |
| Correlation.PeakIsUnique | Firmware/_daq_core/delay_sync.py:541-545 | for a nonzero signal moved inside the window the correlation power is strictly largest at its own lag |
| Correlation.DelayIsExact | Firmware/_daq_core/delay_sync.py:545-559 | the delay computed from the peak of a signal moved by s is -s; whether the code gets to it is HandledExactlyWhenRoom |
| Correlation.SelfPeakIsStrict | Firmware/_daq_core/delay_sync.py:541 | the autocorrelation of a nonzero signal is strictly largest at lag zero |
| DelayEstimate.HandledExactlyWhenRoom | Firmware/_daq_core/delay_sync.py:534-550 | sample calibration handles a frame of moved copies of the reference if and only if it fills the window and every move plus the peak offset stays below the window length; otherwise the process ends without a stamp or a correction |
| DelayEstimate.CalibrationFindsMoves | Firmware/_daq_core/delay_sync.py:527-581 | if so, one frame of sample calibration records every move, corrects each in its direction and goes on exactly if there is none |
| ReferenceChannel.StandardIsSparedExactly | Firmware/_daq_core/delay_sync.py:544-613 | on frames of the configured sizes no run orders a rate correction for the standard channel if and only if that is channel 0, or neither the window nor the DATA frames cut to it are multiples of 1024 samples |
| ReferenceChannel.StandardIsUncorrected | Firmware/_daq_core/delay_sync.py:501-672 | in every run the standard channel's IQ adjustment, correction and reference difference stay one |
| IniRoundTrip.PrintParse | Firmware/_daq_core/ini.c:79-273 | printing canonical lines and parsing the text calls the handler with exactly their sections, names and values in order, through the chunked reader, trimming and inline comments, and reports the first rejected call's line |
| IniRoundTrip.MarkedDocument | Firmware/_daq_core/ini.c:142-149 | a byte order mark in front of a document makes no difference |
| IniRoundTrip.WhitespaceIsC | Firmware/_daq_core/ini.c:34-48 | whitespace is the space and the characters 9 to 13 |
| IniRoundTrip.ParseEntry | Firmware/_daq_core/ini.c:179-203 | a printed pair is read back, pads and remark left out |
| IniRoundTrip.ParseHeading | Firmware/_daq_core/ini.c:162-178 | a printed section line is read back |
| IniRoundTrip.ParseContinuation | Firmware/_daq_core/ini.c:155-160 | an indented line is one more value of the last name |
| IniRoundTrip.ValueIsRead | Firmware/_daq_core/ini.c:185-192 | the value is read back whatever surrounds it |
| IniRoundTrip.LineIsRead | Firmware/_daq_core/ini.c:240-263 | the reader finds the end of a printed line |
| IniProcess.RStripAt | Firmware/_daq_core/ini.c:34-40 | the string in the buffer loses the whitespace at its end and nothing else changes |
| IniProcess.LSkipAt | Firmware/_daq_core/ini.c:43-48 | the position of the first character that is no whitespace |
| IniProcess.FindAt | Firmware/_daq_core/ini.c:53-68 | the first of the characters or an inline comment, or the end |
| IniProcess.StrNCpy0 | Firmware/_daq_core/ini.c:71-76 | the copy holds what fits, always terminated |
| IniProcess.ReadLine | Firmware/_daq_core/ini.c:240-263 | the buffer holds the text up to a line end or up to its size |
| IniProcess.Parser.HandleSection | Firmware/_daq_core/ini.c:162-178 | a section line in place |
| IniProcess.Parser.HandlePair | Firmware/_daq_core/ini.c:179-203 | a pair line in place |
| IniProcess.Parser.HandleLine | Firmware/_daq_core/ini.c:139-203 | a line in the buffer in place is one line of the model |
| IniProcess.Parser.ParseStream | Firmware/_daq_core/ini.c:79-216 | the loop over the lines makes the model's calls and returns its error line |
| HeaderCodec.EncodeIsPack | Firmware/_daq_core/iq_header.py:82-104 | encoding in pieces is the natively packed record, 1024 bytes |
| HeaderCodec.DecodeEncode | Firmware/_daq_core/iq_header.py:52-104 | decoding an encoded header gives every field back, the hardware id filled up to 16 with zeros |
| Utf8Texts.TextsAreUtf8 | Firmware/_daq_core/iq_header.py:60 | a hardware id is accepted if and only if it is the UTF-8 encoding of some sequence of Unicode scalar values |
| Utf8Texts.DecodeFailsExactly | Firmware/_daq_core/iq_header.py:52-60 | decoding fails exactly on bytes of another length, storing nothing, and on an id that is no text, storing the first two fields and nothing else |
| HeaderLayout.EncodeDecode | Firmware/_daq_core/iq_header.py:52-104 | encoding a decoded header gives the same bytes with the reserved words and the two alignment gaps zeroed |
| HeaderLayout.FieldsStandFirst | Firmware/_daq_core/iq_header.h:36-44 | the first fields stand at the offsets of the C structure |
| HeaderLayout.FieldsStandNext | Firmware/_daq_core/iq_header.h:45-52 | so do counters, sizes and flags |
| HeaderLayout.WordsStand | Firmware/_daq_core/iq_header.h:53-59 | so do gains, stamps, reserved words and version |
| HeaderLayout.GapsAre | Firmware/_daq_core/iq_header.h:35-60 | the only bytes that belong to no field are 36 to 39 and 68 to 71 |
| StructCodec.UnpackPack | Firmware/_daq_core/iq_header.py:56 | unpacking a packed record of any format gives its values back |
| StructCodec.PackUnpack | Firmware/_daq_core/iq_header.py:86-103 | packing what was unpacked gives the bytes back, with the gaps zeroed |
| StructCodec.PackPieces | Firmware/_daq_core/iq_header.py:86-103 | packing in pieces that start aligned is packing the whole |
| IqHeaderProcess.IQHeader.EncodeHeader | Firmware/_daq_core/iq_header.py:82-104 | the bytes appended by the loops, or nothing when packing raises an error |
| IqHeaderProcess.IQHeader.DecodeHeader | Firmware/_daq_core/iq_header.py:52-80 | the fields stored, also when decoding raises an error half-way |
| Decimator.SampleIsLastOfGroup | Firmware/_daq_core/fir_decimate.c:266-313 | output sample k of channel m is the filtered sample at (k + 1) * dec - 1 of that channel's own block |
| Decimator.ChannelBlocks | Firmware/_daq_core/fir_decimate.c:311-312 | the output is one block per channel without gap or overlap, each made of its own input block alone |
| Decimator.RebufferedChannels | Firmware/_daq_core/rebuffer.c:316-336 | on a DATA frame of the rebuffer every channel is made of exactly its own block and has cpi_size samples |
| Decimator.RebufferedConversion | Firmware/_daq_core/fir_decimate.c:316-329 | on calibration frames and at ratio one every block is converted value by value without filtering |
| Decimator.CoveredExactlyWhenDivisible | Firmware/_daq_core/fir_decimate.c:255-311 | the input pointer left by the loop over channels stands behind the last sample if and only if the ratio divides the frame's length, and before it otherwise |
| DecimatorRun.FramesAreNumbered | Firmware/_daq_core/fir_decimate.c:232-250 | in any run frame n, counting dropped ones, is sent with number n modulo 2^32 if it finds a free buffer, and not sent otherwise |
| DecimatorRun.NumbersTellDrops | Firmware/_daq_core/fir_decimate.c:232-335 | between two sent frames the number advances by one and by the frames dropped between them |
| DecimatorRun.HeadersAnnounce | Firmware/_daq_core/fir_decimate.c:244-329 | the sampling frequency sent is the ADC's divided by the ratio on filtered frames and the ADC's on converted ones, the length and the number of samples that follow agree, and every field not set is sent as received |
| DecimatorRun.OnlyDataFilters | Firmware/_daq_core/fir_decimate.c:252-335 | calibration, dummy and dropped frames leave the filter as it was |
| DecimatorRun.ConversionIsAffine | Firmware/_daq_core/fir_decimate.c:276-277 | bytes become equally spaced values from -1 to 1 |
| DecimatorProcess.Decimation.DeInterleave | Firmware/_daq_core/fir_decimate.c:274-278 | both phases of the block, converted |
| DecimatorProcess.Decimation.Downsample | Firmware/_daq_core/fir_decimate.c:300-309 | the running index keeps the last sample of every group and touches nothing else |
| DecimatorProcess.Decimation.ProcessChannels | Firmware/_daq_core/fir_decimate.c:266-313 | the loop with its advancing pointers writes the model's output and leaves the input pointer where the model says |
| DecimatorProcess.Decimation.ConvertAll | Firmware/_daq_core/fir_decimate.c:322-327 | conversion without filtering |
| DecimatorProcess.Decimation.ProcessFrame | Firmware/_daq_core/fir_decimate.c:232-329 | header fields, payload and frame number of a processed frame |
| AcquisitionRing.FramesAreCoherent | Firmware/_daq_core/rtl_daq.c:607-699 | in every interleaving of callbacks and main thread frame indices are consecutive, and frame n carries block n of a channel if and only if its receiver was at most eight blocks ahead when the sending of the block ended, writes that begin meanwhile included |
| AcquisitionRing.WritesStayAhead | Firmware/_daq_core/rtl_daq.c:305-312 | while a frame is sent, a write targets the slot being sent only from more than a ring ahead |
| AcquisitionRing.CheckStopsExactly | Firmware/_daq_core/rtl_daq.c:608-623 | in every interleaving the check sends the main thread back to wait exactly if a receiver is a whole number of laps ahead, none included |
| AcquisitionRing.StepKeepsInv | Firmware/_daq_core/rtl_daq.c:607-699 | every step keeps what the slots hold and what has been found ready |
| AcquisitionRing.SlotIs | Firmware/_daq_core/rtl_daq.c:308-312 | a slot holds block n exactly until the lap after it begins |
| AcquisitionRing.BeginWriteKeeps | Firmware/_daq_core/rtl_daq.c:305-312 | a write that begins while a block is being sent tears it exactly if it takes the receiver more than a ring ahead |
| AcquisitionRing.OverrunIsSent | Firmware/_daq_core/rtl_daq.c:612-622 | a run in which a receiver nine blocks ahead passes the check and frame 0 carries block 8 |
| AcquisitionProcess.RtlReceiver.Callback | Firmware/_daq_core/rtl_daq.c:305-312 | the ring in place holds the last eight blocks, each in its slot |
| AcquisitionProcess.RtlReceiver.ReadBlock | Firmware/_daq_core/rtl_daq.c:690-691 | what is read for block n is block n |
| AcquisitionProcess.DataReady | Firmware/_daq_core/rtl_daq.c:608-623 | ready exactly if every receiver passes both checks |

## Left out

- USB, ZMQ, shared memory and FIFO system calls, process start and stop, logging: queues and atomic steps instead.
- Atomic steps: a command and one turn of the receiver's main loop are one step each, since both hold the mutex;
  in the handshake every call on the flags and FIFOs is one step. The acquisition rings are modelled finer, with
  writes and reads in progress and one step per channel checked.
- RtlDaqProcess.Daq.HandleCommand: the reconfiguration command 'r', which overwrites gain, frequency and rate of the
  receivers and restarts their reading threads, is deprecated and sent by no module.
- Overdrive detection in `rtl_daq.c`: it looks at a ring slot chosen one frame earlier; its flags are an input here.
- The receivers' AGC against the controller's: their laws are separate (`SourceDelivery.AgcSurvives` and
  `ReceiverSettings.LastModeExactly`), since commands between two frames may be carried out in another order.
- UserGains.UserGainsSurvive: gain requests hold supported values only; a list with an unsupported value is stored
  up to that value without being sent.
- NoiseHandshake.FramesFollowController: synchronizer stamps are arbitrary, so that the result does not depend on
  measurements; rebuffer and decimator appear only as losses.
- LoopSafety.LoopStepKeeps: buffer sizes upstream of the synchronizer appear only as losses of frames; the failing runs
  of `NoiseLimits` lose frames behind the synchronizer, whose outputs drop frames.
- Capture.SettingsReachBlocks: a block counts from the callback that copies it; the time it spent in the device and in
  USB transfers before that is not modelled.
- Rebuffer drop mode, short reads and pipe errors: the chain starts the rebuffer in blocking mode and the error paths
  only exit. The expected frame index is only logged.
- Chain.StepKeeps: every stage blocks; the start script runs the decimator without its argument and thus in drop mode,
  and the synchronizer's outputs drop too.
- The time stamp correction of the rebuffer and all sample arithmetic use exact numbers; float rounding is not modelled.
- Signal processing behind the measurements: the transform (its circular correlation stands for it), whether a peak
  within range stands out, the fractional delay estimate, eigenvalues, tolerances and the values of IQ differences; the
  errors these raise on signals that are zero or not finite; the scaling of samples in place by the estimate.
- A synchronizer with a single channel: its IQ calibration state would use a variable never set.
- Filters: any function from a state and a block to a state and as many samples; the ARM branches, which decimate
  inside the filter library, and the filter reset, which is not implemented on the other branch.
- Decimator.RebufferedChannels: the filter's state is shared by all channels on the modelled branch, so equal inputs
  of two channels may be filtered differently.
- ini_parse_file and the heap variants of the parser, NUL characters inside files, and what the handlers do with a
  value; every handler of the chain rejects every call, so the error line is that of the first pair.
- IniRoundTrip.PrintParse: lines longer than the buffer are split by the reader and not canonical; neither are names
  of 50 characters or more.
- HeaderCodec.DecodeEncode: a text is identified with its UTF-8 bytes.
- `ini_checker.py`, `cfg_gen.py`, `inter_module_messages.py`, `dac_controller.py`, `iq_server.c`, `eth_server.h`, the
  test generators and plots: field checks, I/O and declarations. Size limits of the checker are preconditions.
