# A verified model of the GPS receiver

The receiver finds satellites, tracks their codes and carriers, reads their navigation messages and
solves for a position. This project models the parts of it whose correctness is hard to see from
any one function, and proves what they keep over whole runs. `dafny verify dfyconfig.toml` checks
everything.

| file | component |
|---|---|
| `Numbers.dfy`, `Rings.dfy`, `Bits.dfy` | rounding and the like; finite sums over commutative rings; bitwise operations on unbounded naturals |
| `Fft.dfy` | the in-place radix-2 transform of the spectrum engine's host path |
| `DopplerSearch.dfy` | the acquisition search, which gets most Doppler bins by a circular shift |
| `CodeSearch.dfy` | what a bin holds: the circular correlation with the code, and its peak for a received code |
| `WorkerPool.dfy` | the tracking barrier, as a step relation over one caller and n workers |
| `BoundedQueue.dfy` | the ring buffer, and its blocking operations under any interleaving |
| `Lifecycle.dfy` | the leaky buckets that confirm and lose a lock |
| `AcquisitionHandoff.dfy` | the one-search-in-flight protocol between consumer and acquisition thread |
| `NavBits.dfy`, `Parity.dfy`, `ParityEquations.dfy` | navigation words as bit strings, and the parity of section 20.3.5.2 of IS-GPS-200 |
| `NavDecoder.dfy` | one decode attempt, its fields, and the subframe round trip |
| `NavHistory.dfy` | the bit-edge search and the sample history that is compacted under it |
| `NavStart.dfy` | where a subframe sent without noise is found to start, and what the channel takes from it |
| `LeastSquares.dfy`, `PvtSolver.dfy` | Gauss-Jordan, weighted least squares and the fault-exclusion loop |
| `PvtExact.dfy` | what the solver makes of measurements without error |
| `Correlator.dfy`, `OwnSignal.dfy` | the eight-lane correlator, and its sums for the signal it tracks |
| `WireLog.dfy`, `LogBytes.dfy` | the telemetry log's writer and its tail parser, and the bytes of a record |
| `MedianSnap.dfy` | snapping transmit times to the median arrival |

## How the source is rendered

Methods that update fields or arrays in place are classes and loops here too, each proved against a
function of its inputs or old state; the promises are then lemmas about those functions. Threads are
interleaved step by step: each critical section, each notification and each atomic access is one
step, a thread that waits on a condition variable is asleep or ready to test its predicate again, and
wakeups may be spurious where safety is concerned.

Floating point is idealised. Samples of the transform are elements of a commutative ring in which
every positive integer is invertible, with phasors given by a map from angles that turns sums into
products; where the reuse of spectra is decided, distinct angles have distinct phasors, and where the
code's spectrum is concerned, conjugation is a homomorphism. Everything else is over the reals. Orbits,
lines of sight, delays and elevations are function values handed to the position solver. Cosine and sine
are functions of which only the addition formulas are used; for the phase carried between blocks also
the period, and for the signal that is tracked, that their squares add up to one. The square root in the
step test is replaced by comparing squares. The residuals that are gated are those of the last
linearisation, before its correction is applied, as in the source
(Source/Pvt/GPSOpenClPVTSolver.cpp:326 and 408-428). Cursors, counters and the pool's generation number
are unbounded. A bit sum of zero reads as a zero bit at either polarity, so the round trip asks for
sums that are not zero.

## Where the code differs from what is said about it

- The history is said to stay inside its initial reservation of 60,000 samples
  (Source/Tracking/GPSOpenClChannel.hpp:208-211). It does only while the anchor stays recent: a locked
  channel that decodes nothing more keeps every sample. `NavHistory.ReservationIff` gives the exact
  condition, `NavHistory.ReservationOverflows` a run, `NavHistory.HistoryIsBounded` the bound that holds.
- A subframe whose assumed zero feedback was wrong is said to fail parity and to be retried on the next
  pass (Source/NavDecode/GPSOpenClNavigationDecoder.hpp:192-194). The polarity is chosen from the preamble
  first, and the code is closed under complement, so the assumption is harmless when D29 and D30 are both
  one. The subframe is rejected exactly when they differ (`NavDecoding.SubframeRoundTrip`, and
  `NavHistory.UnequalFeedbackIsRejected` for an input); the cursor then moves on, and that position is
  never checked again (`NavHistory.ChecksIncrease`).
- The reuse factor is accepted within a tolerance of 0.001, so the shifted spectra are not always those
  of the bins they stand for. `DopplerSearch.SearchIsNaiveIff` says for which settings they are, and
  `DopplerSearch.ToleranceAcceptsInexactSpacing` gives settings and an input for which they are not.
- Publishing accepts an empty name, on which the tail parser stops for good
  (`WireLogs.EmptyNameIsPublished`). `WireLogs.PublishedReadsBack` shows that nothing else in one run's log
  stops it.
- A write that fails closes the file to keep the framing intact, but the next run appends behind whatever
  part of the record was written (Source/Sink/GPSOpenClFileSink.cpp:11). Behind a log without empty names,
  the next run's records up to an empty name are still read exactly when their log is a prefix of that
  part followed by the next run's log
  (`WireLogs.AppendedIsFoundIff`). That holds whenever no byte was written (`WireLogs.NothingTorn`), and
  fails for the two records of `WireLogs.AppendedAfterTorn`.
- The parser takes a file shorter than its offset for a new one (Tools/dashboard.py:422-425). A file that
  was replaced and already reaches the offset is read on from there. A complete log is read whole exactly
  when the pass starts at its first byte (`WireLogs.ReplacedLogIff`); `WireLogs.ReplacedLogIsMissed` gives
  one whose first record is missed.
- The limit on residuals is said to judge converged ones (Source/Common/GPSOpenClStructs.hpp:236). Judged are
  those from before the last correction, and the step that counts as converged does not include the clock,
  which starts at zero. So a receiver that stands at its reference is refused when its clock error is beyond
  the limit, however exact its measurements: `PvtExact.StillReceiverIff` gives the condition,
  `PvtExact.FarStillReceiver` four satellites, and `PvtExact.FixIff` says for all exact measurements when
  there is a fix.
- When the search mask hides a subframe that passed parity, the attempt counts as failed
  (`NavDecoding.SubframeRoundTrip`), so the cursor moves on by one bit rather than by a subframe
  (`NavHistory.DecodeAtPhaseOffset`).

## Model

| member | source | states |
|---|---|---|
| Fft.SpectrumEngine.FftCpu | Source/Gpu/GPSOpenClSpectrumEngine.cpp:346-419 | status 0 exactly for length zero or a power of two, and then the output is the transform of the input (cell k is the sum of x[n] w^(nk), divided by N when inverse); -1 and no output otherwise |
| Fft.InverseUndoesForward | Source/Gpu/GPSOpenClSpectrumEngine.cpp:346-419 | for every power-of-two length, the inverse direction applied to the forward transform gives back every sample |
| Fft.DftInverts | Source/Gpu/GPSOpenClSpectrumEngine.cpp:391-416 | before the 1/N scaling, the inverse of the forward transform is N times the input, cell by cell |
| Fft.SpectrumEngine.PermuteInput | Source/Gpu/GPSOpenClSpectrumEngine.cpp:364-375 | the reverse-carry copy puts input sample i into the cell whose index is i with its bits reversed |
| Fft.ReverseIncrement | Source/Gpu/GPSOpenClSpectrumEngine.cpp:368-374 | the carry loop turns the reversal of i into the reversal of i + 1 |
| Fft.PermutedIsStageZero | Source/Gpu/GPSOpenClSpectrumEngine.cpp:364-375 | the permuted input is the state in which every block of one cell is its own transform |
| Fft.StagePass | Source/Gpu/GPSOpenClSpectrumEngine.cpp:392-408 | all butterflies of one pass turn finished blocks of 2^j cells into finished blocks of 2^(j+1) cells |
| Fft.LastStageIsDft | Source/Gpu/GPSOpenClSpectrumEngine.cpp:392-408 | when the one block left spans the array, it is the transform by definition |
| Fft.SpectrumEngine.PrepareTwiddles | Source/Gpu/GPSOpenClSpectrumEngine.cpp:377-389 | after a call the table is the one for the new length: entry k is the phasor at -k/N of a turn |
| Fft.SpectrumEngine.BlockButterflies | Source/Gpu/GPSOpenClSpectrumEngine.cpp:398-406 | the innermost loop performs the butterflies of one block in place and touches no other cell |
| Fft.SpectrumEngine.ButterflyPass | Source/Gpu/GPSOpenClSpectrumEngine.cpp:394-407 | one value of len performs exactly the butterflies of its pass, in place |
| Fft.SpectrumEngine.AllPasses | Source/Gpu/GPSOpenClSpectrumEngine.cpp:391-408 | the outer loop leads from the permuted input to the last stage |
| Fft.SpectrumEngine.ScaleInPlace | Source/Gpu/GPSOpenClSpectrumEngine.cpp:410-416 | every cell is multiplied by 1/N |
| Bits.SingleBitMeansPowerOfTwo | Source/Gpu/GPSOpenClSpectrumEngine.cpp:355-359 | n > 0 && (n & (n - 1)) == 0 exactly for the powers of two |
| DopplerSearch.Correlate | Source/Acquisition/GPSOpenClAcquisition.cpp:94-189 | of the grid the shift reuse produces, the metrics carry the value, the lag and the frequency of the first maximum in (bin, lag) order when it is positive, and zeros when it is not, and as mean the sum of all cells over bins times samples; when the reuse is exact or there is one spectrum per bin, of the naive grid; on a failed transform or unequal sizes the metrics stay reset |
| DopplerSearch.MeanIsTotal | Source/Acquisition/GPSOpenClAcquisition.cpp:120-135 | the mean added up bin by bin, times the number of cells, is the sum of all cells |
| DopplerSearch.TotalCounts | Source/Acquisition/GPSOpenClAcquisition.cpp:123-135 | in which every cell counts once |
| CodeSearch.CodeIsFound | Source/Acquisition/GPSOpenClAcquisition.cpp:94-189 | for input that is the code delayed by d samples on a carrier as far below zero as the bin is above it, lag m of the bin is the power of the amplitude against the code delayed by m and by d |
| CodeSearch.PeakAtDelay | Source/Acquisition/GPSOpenClAcquisition.cpp:120-144 | which for a code of ones and minus ones is at lag d the amplitude times the number of samples |
| CodeSearch.BinIsCircular | Source/Acquisition/GPSOpenClAcquisition.cpp:160-182 | for any input: lag m of a bin is the power of the mixed input against the code delayed by m, around the circle |
| CodeSearch.CorrelationIsCircular | Source/Gpu/GPSOpenClSpectrumEngine.cpp:728-781 | the product of the two spectra, transformed back, is that circular correlation |
| CodeSearch.SpectrumOfCode | Source/Acquisition/GPSOpenClCaCodeGenerator.cpp:121-135 | the conjugated forward spectrum of a real code, which the table holds, is its unscaled inverse spectrum |
| DopplerSearch.ReuseIsNaiveIff | Source/Acquisition/GPSOpenClAcquisition.cpp:73-92 | reusing k spectra gives every bin its own spectrum, for every input of n samples, if and only if n is at most one, no bin needs a shift, or k times the spacing over the sampling rate differs from 1/n by a whole number of turns |
| DopplerSearch.SearchIsNaiveIff | Source/Acquisition/GPSOpenClAcquisition.cpp:73-92 | for the factor the search itself chooses: if and only if there is at most one sample, one spectrum per bin, or the factor times the spacing times the samples per code is the sampling rate |
| DopplerSearch.ExactIff | Source/Acquisition/GPSOpenClAcquisition.cpp:82-91 | k spacings turn the phasor as one FFT bin does, the condition under which `Correlate` is naive, exactly when they differ by whole turns |
| DopplerSearch.ExactWhenSpacingDivides | Source/Acquisition/GPSOpenClAcquisition.cpp:82-91 | that holds when k times the spacing times the length is the sampling rate |
| DopplerSearch.ShiftIsRemix | Source/Gpu/GPSOpenClSpectrumEngine.cpp:742-774 | under it, the slot spectrum read shift bins lower is the spectrum of the input mixed with the shifted carrier |
| DopplerSearch.ReuseGridIsNaive | Source/Acquisition/GPSOpenClAcquisition.cpp:94-189 | then the whole grid of correlations equals the grid of the search that mixes every bin with its own carrier |
| DopplerSearch.ToleranceAcceptsInexactSpacing | Source/Acquisition/GPSOpenClAcquisition.cpp:83-88 | from -4000 to 4000 Hz by 500 Hz, 2048 samples at 2.049 MHz: the tolerance of 1e-3 lets two spectra serve 17 bins, and what is read for bin 2 of an impulse is not that bin's spectrum |
| DopplerSearch.BinsCoverRange | Source/Acquisition/GPSOpenClAcquisition.cpp:33-44 | the bins reach the configured maximum, and one fewer would not |
| DopplerSearch.ReuseFactorIff | Source/Acquisition/GPSOpenClAcquisition.cpp:73-92 | for k below the number of bins, k spectra are computed exactly when length, spacing and rate are positive and the FFT resolution is within 0.001 of k spacings; otherwise one per bin |
| DopplerSearch.Acquisition.constructor | Source/Acquisition/GPSOpenClAcquisition.cpp:13-29 | the table holds the carriers of bins 0 .. factor - 1 and nothing else |
| DopplerSearch.Acquisition.FillSlots | Source/Acquisition/GPSOpenClAcquisition.cpp:100-110 | every slot holds the spectrum of its own bin, or the search stops at the first failed transform |
| DopplerSearch.SlotPool.MultiplyThenFftToSlot | Source/Gpu/GPSOpenClSpectrumEngine.cpp:666-726 | the slot holds the transform of the product, or is left invalid when the transform fails; other slots are unchanged |
| DopplerSearch.SlotPool.MultiplyResidentThenFftThenAbsolute | Source/Gpu/GPSOpenClSpectrumEngine.cpp:728-781 | the squared magnitudes of the transform of the code times the rotated resident spectrum; fails exactly for a bad slot, an empty or unequal length, or a length that is no power of two |
| DopplerSearch.ShiftedMultiplier | Source/Gpu/GPSOpenClSpectrumEngine.cpp:742-774 | the offset arithmetic reads the resident spectrum rotated by shiftBins modulo its length |
| DopplerSearch.ScanBin | Source/Acquisition/GPSOpenClAcquisition.cpp:120-134 | the sum of a bin, its maximum and the first index at which it occurs |
| DopplerSearch.AccumulateBin | Source/Acquisition/GPSOpenClAcquisition.cpp:120-144 | the running peak stays the first maximum of all bins so far, and the mean their mean |
| DopplerSearch.ScanBins | Source/Acquisition/GPSOpenClAcquisition.cpp:160-182 | the bin loop scans the reuse grid in order and stops at the first failure |
| WorkerPool.StepKeeps | Source/Tracking/GPSOpenClTrackingWorkerPool.cpp:27-149 | every step of caller and workers keeps the pool invariant: pending equals unclaimed slots plus active workers, each item begun at most once, nobody needed sleeps unnotified |
| WorkerPool.Barrier | Source/Tracking/GPSOpenClTrackingWorkerPool.cpp:50-91 | when run returns, each of its items was executed exactly once and no thread is inside a callback |
| WorkerPool.AllRunsComplete | Source/Tracking/GPSOpenClTrackingWorkerPool.cpp:50-91 | so every run that ever returned executed each of its items exactly once |
| WorkerPool.RunDoesWhatWasAsked | Source/Tracking/GPSOpenClTrackingWorkerPool.cpp:50-91 | when the run called with a positive count returns, exactly the items 0 to count - 1 were executed, once each |
| WorkerPool.LogIsWhatWasAsked | Source/Tracking/GPSOpenClTrackingWorkerPool.cpp:50-91 | the runs that returned are the calls with a positive count, in order, each with the items it asked for |
| WorkerPool.CallbackBelongs | Source/Tracking/GPSOpenClTrackingWorkerPool.cpp:103-149 | a thread inside drainCursor is the caller or a worker that claimed a slot of this very run; no two hold the same item, and an item about to be begun has not been begun before |
| WorkerPool.LateWakerBacksOff | Source/Tracking/GPSOpenClTrackingWorkerPool.cpp:110-119 | a worker that wakes between runs or during an inline run touches neither the cursor nor a callback |
| WorkerPool.SlotsAreServed | Source/Tracking/GPSOpenClTrackingWorkerPool.cpp:71-80 | while slots are unclaimed at least as many workers have not seen the run, and after notify_all none of those sleeps |
| WorkerPool.StepDecreases | Source/Tracking/GPSOpenClTrackingWorkerPool.cpp:50-149 | every step that is no call and no spurious wakeup lowers a measure |
| WorkerPool.NeverStuck | Source/Tracking/GPSOpenClTrackingWorkerPool.cpp:27-91 | inside run and inside the destructor some such step is always possible |
| WorkerPool.EverythingReturns | Source/Tracking/GPSOpenClTrackingWorkerPool.cpp:27-91 | so every schedule is finite and, when it cannot go on, run has returned or every worker is joined |
| WorkerPool.NotifyOneCanHang | Source/Tracking/GPSOpenClTrackingWorkerPool.cpp:80 | were notify_all one notify_one per slot: a run of two workers and three items, without spurious wakeups, in which both calls wake a sleeper, one slot stays unclaimed, the caller sleeps and no step at all is possible |
| BoundedQueues.BoundedQueue.constructor | Source/Common/GPSOpenClBoundedQueue.hpp:24 | an empty queue; a capacity of zero is taken for one |
| BoundedQueues.BoundedQueue.EnqueueLocked | Source/Common/GPSOpenClBoundedQueue.hpp:110-114 | the item is appended to the contents of the ring |
| BoundedQueues.BoundedQueue.DequeueLocked | Source/Common/GPSOpenClBoundedQueue.hpp:118-123 | the oldest item is removed from the contents of the ring |
| BoundedQueues.BoundedQueue.TryPush | Source/Common/GPSOpenClBoundedQueue.hpp:48-60 | refuses exactly when full or finished, and then changes nothing |
| BoundedQueues.BoundedQueue.TryPop | Source/Common/GPSOpenClBoundedQueue.hpp:84-96 | refuses exactly when empty, and then changes neither queue nor output |
| BoundedQueues.RingPushed | Source/Common/GPSOpenClBoundedQueue.hpp:110-114 | writing the cell after the last one appends to the ring, wrap-around included |
| BoundedQueues.RingPopped | Source/Common/GPSOpenClBoundedQueue.hpp:118-123 | advancing the head drops the first element of the ring |
| BoundedQueues.ExecutionInv | Source/Common/GPSOpenClBoundedQueue.hpp:29-105 | in every interleaving: accepted equals popped followed by the ring; if a popper sleeps, the count is at most pending notifies plus awake poppers, and dually for pushers and free cells; after finish nobody sleeps |
| BoundedQueues.ItemsAreTheArguments | Source/Common/GPSOpenClBoundedQueue.hpp:29-96 | in every interleaving, what goes in is the argument of that thread's last call of push, however often it slept, or of tryPush; what comes out is the oldest item not taken; a blocking call returns without either only after finish |
| BoundedQueues.QuiescentSleepersAreRight | Source/Common/GPSOpenClBoundedQueue.hpp:29-78 | when nobody can move, a sleeping popper faces an empty queue and a sleeping pusher a full one |
| BoundedQueues.PoppedIsPrefix | Source/Common/GPSOpenClBoundedQueue.hpp:29-96 | popped items are the accepted ones in order, with at most the capacity outstanding |
| BoundedQueues.FinishedDrains | Source/Common/GPSOpenClBoundedQueue.hpp:65-105 | after finish nothing is accepted, pop takes the next accepted item, and once all are taken it returns without one |
| Lifecycle.Debouncing | Source/Tracking/GPSOpenClChannel.cpp:162-228 | after any blocks: confirming iff undecided, tracking iff some suffix of good blocks reached the threshold in time and no suffix of bad ones has since; the acquired flag agrees with the state |
| Lifecycle.RunMeetsSpec | Source/Tracking/GPSOpenClChannel.cpp:162-228 | the state, flag and counters after any blocks meet the verdicts of the best suffixes, each counter being the bucket of the blocks since entering the state |
| Lifecycle.BucketIsBestSuffix | Source/Tracking/GPSOpenClChannel.cpp:171-192 | a bucket that leaks on the other kind of block holds the largest net score of a suffix |
| Lifecycle.Channel.TrackBlock | Source/Tracking/GPSOpenClChannel.cpp:132-155 | one block changes the lifecycle fields as the transition function says, and the flag keeps agreeing with the state |
| Lifecycle.Channel.StartTracking | Source/Tracking/GPSOpenClChannel.cpp:91-111 | tracking starts in Confirming with all counters zero |
| AcquisitionHandoff.StepKeeps | Source/Application/GPSOpenClApplication.cpp:109-134 | every step of the consumer and of the acquisition thread keeps the hand-off invariant |
| AcquisitionHandoff.BusyMeansOneSearch | Source/Application/GPSOpenClApplication.cpp:383-430 | never more than one search exists, and outside the two-step windows the busy flag says whether one does |
| AcquisitionHandoff.NothingIsLost | Source/Application/GPSOpenClApplication.cpp:124-131 | no full queue ever refuses a job or a result, and results reach only channels in Acquiring |
| AcquisitionHandoff.SearchedIsNotTracked | Source/Application/GPSOpenClApplication.cpp:144-156 | a channel under search is in Acquiring and never among the channels being tracked |
| AcquisitionHandoff.ResultDecides | Source/Application/GPSOpenClApplication.cpp:61-91 | a result is that of the channel submitted last; a strong one makes it Confirming, a weak one leaves it in Acquiring, and no other channel changes |
| AcquisitionHandoff.OnlyStrongResultAcquires | Source/Application/GPSOpenClApplication.cpp:79-87 | no other step takes a channel out of Acquiring |
| AcquisitionHandoff.TracksTheRest | Source/Application/GPSOpenClApplication.cpp:144-156 | the channels a block tracks are exactly those not in Acquiring |
| AcquisitionHandoff.SweepSubmitsEachOnce | Source/Application/GPSOpenClApplication.cpp:394-405 | the cold-start sweep submits the 32 channels once each, in order, before anything else |
| AcquisitionHandoff.EverySlotReturns | Source/Application/GPSOpenClApplication.cpp:406-417 | after the sweep every channel has exactly one slot in every period of 32 slots |
| AcquisitionHandoff.PeriodIsInterval | Source/Application/GPSOpenClApplication.cpp:406-417 | such a period is the interval, less what does not divide by 32, and 32 blocks for a shorter one |
| Parity.WindowOkBySyndrome | Source/NavDecode/GPSOpenClNavigationDecoder.cpp:140-177 | the source's check after uncomplementing accepts a received word exactly when the six sums over its 32 received bits, feedback included, are even |
| Parity.ErrorsLeaveSyndrome | Source/NavDecode/GPSOpenClNavigationDecoder.cpp:140-177 | one, two, three or any odd number of flipped bits among those 32 makes some sum odd |
| Parity.WindowRejects | Source/NavDecode/GPSOpenClNavigationDecoder.cpp:440-456 | such a word is rejected |
| Parity.ChainRejects | Source/NavDecode/GPSOpenClNavigationDecoder.cpp:434-456 | an accepted chain of any number of words with one to three bits flipped anywhere, feedback bits included, is rejected |
| Parity.FourCanPass | Source/NavDecode/GPSOpenClNavigationDecoder.cpp:140-177 | a pattern of four flips that is accepted whenever the original is |
| Parity.ChainOfComplement | Source/NavDecode/GPSOpenClNavigationDecoder.cpp:434-456 | the code is closed under complement: a chain is accepted exactly when its complement, feedback bits included, is |
| Parity.StoredOfComplement | Source/NavDecode/GPSOpenClNavigationDecoder.cpp:440-444 | and the complement stores the same data |
| Parity.DataWordSpelled | Source/NavDecode/GPSOpenClNavigationDecoder.cpp:443-444 | raw ^ 0x3FFFFFC0 complements the 24 data bits and nothing else |
| Parity.CheckParityOfWord | Source/NavDecode/GPSOpenClNavigationDecoder.cpp:140-177 | on the number a bit string spells, the check is the six parity equations on its bits |
| ParityEquations.ParityEquations | Source/NavDecode/GPSOpenClNavigationDecoder.cpp:140-177 | and each of the six is the one of IS-GPS-200, by the numbers of its data bits and its feedback bit |
| Parity.EncodedWordPasses | Source/NavDecode/GPSOpenClNavigationDecoder.cpp:140-177 | a word encoded after any feedback bits passes the check and uncomplements to its data |
| Parity.SentIsRead | Source/NavDecode/GPSOpenClNavigationDecoder.cpp:434-456 | any number of encoded words form an accepted chain whose stored words carry exactly the data sent |
| NavBits.ExtractReadsSlice | Source/NavDecode/GPSOpenClNavigationDecoder.cpp:131-138 | shift and mask read exactly the named bits of a word |
| NavBits.ExtractReadsSigned | Source/NavDecode/GPSOpenClNavigationDecoder.cpp:120-129 | and the sign extension reads them in two's complement |
| NavBits.SignedRoundTrip | Source/NavDecode/GPSOpenClNavigationDecoder.cpp:120-129 | a signed value packed into n bits is read back |
| NavBits.XorOfWords | Source/NavDecode/GPSOpenClNavigationDecoder.cpp:443-444 | the exclusive or of two numbers spells the bitwise exclusive or of their strings |
| NavDecoding.SubframeRoundTrip | Source/NavDecode/GPSOpenClNavigationDecoder.cpp:335-512 | any subframe with fields of the standard widths, packed, encoded after any two feedback bits, spread to samples whose 20-sums have the right strict sign and optionally all negated, decodes to the same raw integers, at position 2 or later always and before that exactly when D29 = D30; otherwise, or with its search-mask bit off, it is rejected |
| NavDecoding.SentWordsRead | Source/NavDecode/GPSOpenClNavigationDecoder.cpp:360-456 | ten words sent after any feedback bits at either polarity are read back through preamble and parity exactly when the two bits before them are read too, or are equal |
| NavDecoding.PackedReads | Source/NavDecode/GPSOpenClNavigationDecoder.cpp:196-285 | words that carry a packed subframe decode to its raw integers, split and signed fields included |
| NavDecoding.SplitField | Source/NavDecode/GPSOpenClNavigationDecoder.cpp:237-266 | a 32-bit field split 8 and 24 bits over two words is joined to the number its bits spell, signed or unsigned |
| NavDecoding.SmallErrorsReject | Source/NavDecode/GPSOpenClNavigationDecoder.cpp:360-456 | flipping one to three of the bits the decoder reads, preamble and feedback included, turns an accepted subframe into a rejected one |
| NavDecoding.FlippedSamplesReject | Source/NavDecode/GPSOpenClNavigationDecoder.cpp:335-456 | the same at the level of prompt samples |
| NavDecoding.AssumedFeedbackIff | Source/NavDecode/GPSOpenClNavigationDecoder.cpp:408-431 | when the zero assumption stands in for the two bits before a subframe, it is accepted exactly when both, as received, have the polarity its preamble shows |
| NavHistory.UnequalFeedbackIsRejected | Source/NavDecode/GPSOpenClNavigationDecoder.hpp:192-194 | a subframe sent after D29 = 1 and D30 = 0 is rejected at the head of the history, and decodes with its two feedback bits before it |
| NavDecoding.RefinedStartIsBest | Source/NavDecode/GPSOpenClNavigationDecoder.cpp:466-509 | the refined start is at most two samples away, keeps its 6000 samples inside the history, and is the first such candidate with the largest metric |
| NavStart.DecodedStartIff | Source/NavDecode/GPSOpenClNavigationDecoder.cpp:458-509 | of any bits sent without noise, at either polarity, with a share f of each first sample belonging to the bit before: a decoded subframe is placed one sample early or one late exactly when f and the share taken from the code phase lean that far apart, and else at its true start |
| NavStart.TrueStartIsReported | Source/NavDecode/GPSOpenClNavigationDecoder.cpp:458-509 | at its true start, whenever f is what the code phase says |
| NavStart.SentSubframeIsFound | Source/NavDecode/GPSOpenClNavigationDecoder.cpp:353-512 | so a packed subframe sent like that is reported with its numbers and its true start, or rejected exactly as in the round trip |
| NavStart.CleanStartIsReported | Source/NavDecode/GPSOpenClNavigationDecoder.cpp:458-509 | when every sample belongs to one bit, it is placed at its true start if the code phase is past the middle, and else one sample early |
| NavDecoding.NavigationDecoder.TryDecodeAtBitPosition | Source/NavDecode/GPSOpenClNavigationDecoder.cpp:335-512 | the loops find what the specification of one attempt says, for every history, phase and bit position |
| NavDecoding.NavigationDecoder.ReadTenWords | Source/NavDecode/GPSOpenClNavigationDecoder.cpp:433-456 | the word loop accepts exactly the chains, and leaves their data words in the scratch buffer |
| NavDecoding.NavigationDecoder.RefineStart | Source/NavDecode/GPSOpenClNavigationDecoder.cpp:466-509 | the candidate loop returns the refined start |
| NavDecoding.NavigationDecoder.DemodulateBit | Source/NavDecode/GPSOpenClNavigationDecoder.cpp:360-369 | a bit is set exactly when its 20 samples sum to more than zero |
| NavHistory.ProcessPromptSignal | Source/NavDecode/GPSOpenClNavigationDecoder.cpp:514-553 | one call tries the locked phase, or the 20 phases in order until one decodes, and moves the cursors as the specification says |
| NavHistory.DecodeAtPhaseOffset | Source/NavDecode/GPSOpenClNavigationDecoder.cpp:312-333 | the cursor moves by 300 bits after a subframe, by one after a failed check, and waits without data |
| NavHistory.Channel.UpdateNavigation | Source/Tracking/GPSOpenClChannel.cpp:287-305 | one update is a compaction followed by one call of the decoder, and records start and time of a decoded subframe |
| NavStart.LockedUpdateReads | Source/Tracking/GPSOpenClChannel.cpp:287-305 | an update of a locked channel whose next subframe was sent like that reports its numbers, moves on by 300 bits, and takes six seconds for each count of the time of week and the true start, moved by what was compacted |
| NavHistory.Channel.CompactNavigationHistory | Source/Tracking/GPSOpenClChannel.cpp:230-285 | the three histories lose the same prefix, cursors and anchor are rebased by it |
| NavHistory.Channel.ResetNavigationState | Source/Tracking/GPSOpenClChannel.cpp:113-130 | the navigation state is that of a new channel, whatever it was |
| NavHistory.Channel.RecordBlock | Source/Tracking/GPSOpenClChannel.cpp:132-155 | a tracked block appends one entry to each history, the drift unwrapped |
| NavHistory.CompactionIsInvisible | Source/Tracking/GPSOpenClChannel.cpp:230-305 | after any blocks, updates and resets, a compacting channel and one that keeps everything made the same reports, have the same phase, and give the same time of week, samples, code phase and drift since the anchor |
| NavHistory.CompactionRebases | Source/Tracking/GPSOpenClChannel.cpp:266-284 | one compaction keeps the compacted state the full one with whole bits cut off, cursors and anchor rebased |
| NavHistory.DropFits | Source/Tracking/GPSOpenClChannel.cpp:230-284 | no rebase underflows: at least the two feedback bits stay before every cursor and before the anchor |
| NavHistory.TryShifts | Source/NavDecode/GPSOpenClNavigationDecoder.cpp:335-512 | an attempt with both feedback bits in the history does not depend on what was cut before them |
| NavHistory.UpdateStaysWithin | Source/NavDecode/GPSOpenClNavigationDecoder.cpp:312-356 | no read cursor passes the end of the history |
| NavHistory.SearchFindsDue | Source/NavDecode/GPSOpenClNavigationDecoder.cpp:530-546 | while searching with one update per sample, a call checks exactly the newest start, at its one phase |
| NavHistory.Coverage | Source/NavDecode/GPSOpenClNavigationDecoder.cpp:312-356 | in the channel that compacts, its cursors and checks counted from the first sample ever tracked: until lock every start sample has been checked, in order, by the first call that had its 6000 samples; after lock everything on the locked phase was checked or lies inside a decoded subframe |
| NavHistory.ChecksAreUncut | Source/Tracking/GPSOpenClChannel.cpp:230-305 | compacting or not, a channel checks the same samples, in the same order, with the same outcome |
| NavHistory.ChecksIncrease | Source/NavDecode/GPSOpenClNavigationDecoder.cpp:514-553 | the channel that compacts never checks a sample twice as a start |
| NavHistory.SearchingStaysShort | Source/Tracking/GPSOpenClChannel.cpp:230-285 | while searching, the history is below 30,000 samples after every call |
| NavHistory.HistoryIsBounded | Source/Tracking/GPSOpenClChannel.cpp:230-285 | the history never reaches max(30,000, 10,060 + A) samples after a call if the anchor is never older than A samples |
| NavHistory.CompactsIff | Source/Tracking/GPSOpenClChannel.cpp:230-264 | a locked channel compacts exactly when the history has 30,000 samples and the anchor is at least phase + 10,040 samples in |
| NavHistory.ReservationIff | Source/Tracking/GPSOpenClChannel.hpp:208-211 | over a whole run of blocks and updates: the history never exceeds 60,000 samples if and only if no update but the last finds 60,000 of them with the anchor before phase + 10,040 |
| NavHistory.ReservationOverflows | Source/Tracking/GPSOpenClChannel.hpp:208-211 | a run of one subframe and m silent samples whose history grows to 6000 + m, past any reservation |
| NavHistory.DriftIsTrue | Source/Tracking/GPSOpenClChannel.cpp:139-153 | if the true code phase never moves half a code in one block, the drift history is its movement since the start |
| NavHistory.DriftDifferences | Source/Tracking/GPSOpenClChannel.hpp:186-194 | differencing two entries of the compacted drift history never aliases |
| LeastSquares.Invert4x4 | Source/Pvt/GPSOpenClPVTSolver.cpp:12-73 | true exactly when no pivot of the elimination is below 1e-12, and then the output is the inverse from both sides; otherwise the output is untouched |
| LeastSquares.GaussJordan | Source/Pvt/GPSOpenClPVTSolver.cpp:355-406 | the in-place loops compute the elimination with the first largest pivot of each column, and stop exactly at the first pivot below 1e-12 |
| LeastSquares.ReductionInverts | Source/Pvt/GPSOpenClPVTSolver.cpp:25-72 | when no pivot fails, what the elimination leaves beside the identity is the two-sided inverse |
| LeastSquares.SingularFails | Source/Pvt/GPSOpenClPVTSolver.cpp:37-40 | a matrix that takes some non-zero vector to zero never passes the pivot test |
| PvtExact.DiagonalReduces | Source/Pvt/GPSOpenClPVTSolver.cpp:362-392 | the elimination of a diagonal matrix goes on exactly while no entry is below 1e-12 |
| LeastSquares.EliminatedReduces | Source/Pvt/GPSOpenClPVTSolver.cpp:25-63 | eliminating a column makes it a unit column while the right half keeps recording the row operations, which can be undone |
| LeastSquares.PivotRow | Source/Pvt/GPSOpenClPVTSolver.cpp:27-36 | the pivot row is the first one with the largest entry |
| LeastSquares.CorrectionMinimises | Source/Pvt/GPSOpenClPVTSolver.cpp:408-416 | the correction through the inverse of HtWH is the unique minimiser of the weighted squared residual |
| LeastSquares.CostExpands | Source/Pvt/GPSOpenClPVTSolver.cpp:338-416 | moving by e from the point of zero slope costs exactly the sum of w (h e)^2 |
| PvtSolver.PVTSolver.SolvePosition | Source/Pvt/GPSOpenClPVTSolver.cpp:237-538 | the outcome is explained by a history of passes: accepted with its reports, or given up for a failed pivot or too few satellites, or masked out; the reference position and fix flag change only on success |
| PvtExact.MovedReceiverIsFixed | Source/Pvt/GPSOpenClPVTSolver.cpp:237-538 | if the pseudoranges are range, receiver clock and delays less the satellites' clocks at one state, ranges are what the linearisation predicts, no choice of enough satellites is singular and the receiver is not at its reference, the call reports exactly that state from all satellites above the mask |
| PvtExact.FixIff | Source/Pvt/GPSOpenClPVTSolver.cpp:406-538 | for such measurements in general: there is a fix if and only if the limit is not negative and either no misfit is judged beyond it or enough satellites are left without those that are |
| PvtExact.FixIsExact | Source/Pvt/GPSOpenClPVTSolver.cpp:446-452 | and without any of the other conditions, whatever is reported of such measurements is exactly that state |
| PvtExact.StillReceiverIff | Source/Pvt/GPSOpenClPVTSolver.cpp:406-428 | of a receiver that stands at its reference there is a fix if and only if its clock error is within the limit on residuals |
| PvtExact.FarStillReceiver | Source/Pvt/GPSOpenClPVTSolver.cpp:406-428 | four satellites for which it is so: no fix beyond thirty metres of clock error |
| PvtExact.FitsIff | Source/Pvt/GPSOpenClPVTSolver.cpp:408-428 | of one pass, without the condition on other choices: it is accepted exactly when no pivot fails at the reference and, if it takes a second step, at the true state, and what is judged is within the limit |
| PvtSolver.HistoryIsDetermined | Source/Pvt/GPSOpenClPVTSolver.cpp:290-537 | the inputs determine the whole history: satellites, states visited, residuals and exclusions, and either it is accepted or the solver gave up, never both |
| PvtSolver.ExclusionsCount | Source/Pvt/GPSOpenClPVTSolver.cpp:428-449 | each pass has one satellite fewer, a subset of the first ones, and never fewer than one above the minimum |
| PvtSolver.PassesAreBounded | Source/Pvt/GPSOpenClPVTSolver.cpp:290-537 | so the exclusion loop ends after at most as many passes as there are satellites to spare |
| PvtSolver.PassIsUnique | Source/Pvt/GPSOpenClPVTSolver.cpp:292-419 | a pass is determined by its satellites |
| PvtSolver.DropsAligned | Source/Pvt/GPSOpenClPVTSolver.cpp:443-446 | erasing one entry keeps the three lists an aligned, increasing subsequence of the input |
| PvtSolver.WeightsAreSquares | Source/Pvt/GPSOpenClPVTSolver.cpp:333-335 | weights are squares, so never negative |
| PvtSolver.PVTSolver.ApplyMask | Source/Pvt/GPSOpenClPVTSolver.cpp:262-288 | the lists keep exactly the satellites at or above the mask, in order, or all when no fix exists |
| PvtSolver.PVTSolver.RunPass | Source/Pvt/GPSOpenClPVTSolver.cpp:292-419 | a pass visits Gauss-Newton states, each the unique weighted least-squares step from the one before, until a step below 1e-4, fifteen steps or a failed pivot |
| PvtExact.StepLeavesLeast | Source/Pvt/GPSOpenClPVTSolver.cpp:303-404 | each step, whatever was measured, goes to the one state that leaves the least of the pseudoranges under the linearisation: range and delays taken away, the clock, and the line of sight times the way gone; in squares, weighted by the squared sine of the elevation |
| PvtSolver.PVTSolver.ExcludeUntilFit | Source/Pvt/GPSOpenClPVTSolver.cpp:290-537 | the loop repeats passes, each without the first largest residual of the one before |
| PvtSolver.PVTSolver.EraseWorst | Source/Pvt/GPSOpenClPVTSolver.cpp:435-446 | the entry with the first largest residual is erased from all three lists |
| PvtSolver.PVTSolver.Accept | Source/Pvt/GPSOpenClPVTSolver.cpp:451-513 | the reported position, clock, count and largest residual are those of the accepted pass, and the covariance is the inverse of the unweighted sums exactly when they pass the pivot test |
| PvtSolver.Accumulate | Source/Pvt/GPSOpenClPVTSolver.cpp:338-353 | the loops accumulate HtWH, HtH and HtWy of all satellites |
| PvtSolver.Correct | Source/Pvt/GPSOpenClPVTSolver.cpp:355-416 | the correction exists exactly when no pivot fails, and is then the unique weighted least-squares solution |
| PvtSolver.LargestResidual | Source/Pvt/GPSOpenClPVTSolver.cpp:421-426 | the largest absolute residual, zero for none |
| PvtSolver.FindWorst | Source/Pvt/GPSOpenClPVTSolver.cpp:435-442 | the first index of a largest absolute residual |
| Correlators.Tracking.CorrelateBlock | Source/Tracking/GPSOpenClTracking.cpp:221-353 | the six sums equal the plain sums of input times conjugate carrier times chip over the whole length |
| Correlators.Tracking.Correlator | Source/Tracking/GPSOpenClTracking.cpp:204-359 | the sums are stored and both phases move on by a block; nothing changes without a sampling rate |
| Correlators.LanesAreTheSum | Source/Tracking/GPSOpenClTracking.cpp:300-332 | eight lanes over whole blocks, added up, are the plain sum |
| Correlators.CarrierTurns | Source/Tracking/GPSOpenClTracking.cpp:258-285 | turning a lane by the block phasor gives its carrier eight samples later |
| Correlators.FillCarrier | Source/Tracking/GPSOpenClTracking.cpp:258-291 | recurrence and tail give every sample the carrier at its own angle |
| Correlators.LookUpChips | Source/Tracking/GPSOpenClTracking.cpp:233-256 | the chips are those at floor(phase - 1/2), floor(phase) and floor(phase + 1/2) modulo 1023 |
| Correlators.WrapChip | Source/Tracking/GPSOpenClTracking.cpp:238-246 | the two loops reduce modulo 1023 for any sign |
| Correlators.Accumulate | Source/Tracking/GPSOpenClTracking.cpp:293-346 | lanes, their sum and the tail add every sample once |
| Correlators.CodeCarriesOver | Source/Tracking/GPSOpenClTracking.cpp:355 | the chips of the next block are those the code would have had without a break |
| Correlators.CarrierCarriesOver | Source/Tracking/GPSOpenClTracking.cpp:357-358 | so are its carriers |
| OwnSignal.OwnSignalSums | Source/Tracking/GPSOpenClTracking.cpp:221-353 | for input that is the code at the phase, on a carrier at the frequency and phase the tracking holds, the prompt sums are the amplitude times the number of samples, and the early and late sums the amplitude times the overlap of the code with itself half a chip before and after |
| OwnSignal.CarrierIsWiped | Source/Tracking/GPSOpenClTracking.cpp:293-346 | a sample that is a times its carrier times a chip contributes a times that chip times each of the three |
| WireLogs.FileSink.WriteRecord | Source/Sink/GPSOpenClFileSink.cpp:55-76 | a whole record is appended, or a torn one and the file is closed |
| LogBytes.RecordBytes | Source/Sink/GPSOpenClFileSink.cpp:40-76 | a record is the length of its name, the name, the length of its data and the data, the lengths as four bytes with the low one first; at most 32 and 512 bytes are taken |
| WireLogs.FileSink.WriterThreadLoop | Source/Sink/GPSOpenClFileSink.cpp:42-78 | the file grows by the framed messages in order, up to the first failed write |
| WireLogs.ParseLogged | Source/Sink/GPSOpenClFileSink.cpp:58-65 | whatever follows a log in the file, its record k is found at its own start and ends where the next begins; a record with an empty name is no record |
| LogBytes.TakenIff | Tools/dashboard.py:431-457 | the parser takes a record from a position exactly when these bytes stand there, with 1 to 256 bytes of name and at most 4096 of data |
| WireLogs.ParseOfLog | Tools/dashboard.py:431-457 | a log is parsed up to its first empty name, or to its end and on into what follows it |
| WireLogs.PublishedReadsBack | Source/Sink/GPSOpenClSink.hpp:41-53 | what was published is what is read: of any calls, the messages that fit and find a slot in the queue, written in order, are parsed back up to the first empty name, and the log is called corrupt if and only if there is one |
| WireLogs.TornReadsBack | Source/Sink/GPSOpenClFileSink.cpp:67-76 | a record torn by a failed write adds nothing to what is parsed, unless it is the length of an empty name |
| WireLogs.AppendedIsFoundIff | Source/Sink/GPSOpenClFileSink.cpp:9-76 | a run's log of a, then any bytes of a record it could not write whole, then the next run's log of b: a and all of b up to its first empty name are parsed if and only if a has no empty name and the log of that part of b is a prefix of the torn bytes followed by the log of b |
| WireLogs.NothingTorn | Source/Sink/GPSOpenClFileSink.cpp:9-76 | with no byte torn the two runs wrote one log, and it is parsed up to its first empty name |
| WireLogs.AppendedAfterTorn | Source/Sink/GPSOpenClFileSink.cpp:9-17 | an input for which it is not so: of a torn record and the record the next run appends, the parser makes a record nobody published, and then nothing more |
| WireLogs.FoundIff | Tools/dashboard.py:431-457 | of any file: fitting records with non-empty names are what the parser finds first at a position if and only if their log is spelled there |
| WireLogs.Tail.ReadRecord | Tools/dashboard.py:432-457 | four reads of a growing file find what the parser finds in the complete one, or nothing when the bytes that decide it were not all there |
| WireLogs.Tail.ReadAvailable | Tools/dashboard.py:431-457 | the inner loop delivers consecutive records from the tail on, and unless stopped it ends only at what is no record or not all there |
| WireLogs.Tail.Poll | Tools/dashboard.py:417-458 | one pass over any file in any state starts at byte 0 when fewer bytes are there than the tail's offset and at the offset otherwise, delivers the consecutive records from its start once and in order, and unless stopped or corrupt misses none that was complete when it began |
| WireLogs.Tail.RunFileTail | Tools/dashboard.py:411-460 | so do any number of passes; over a complete file, without a stop, they deliver exactly what the parser finds and declare corruption if and only if it does |
| WireLogs.ReadsParse | Tools/dashboard.py:431-457 | and at any time what was delivered is a prefix of what the parser finds in the complete file |
| WireLogs.TailPublished | Tools/dashboard.py:411-460 | any number of passes over the growing log of any published messages, from a new tail: what is delivered are the first j messages, all written by then and without an empty name among them; unless stopped or at an empty name every message that was whole when the last pass began is one of them; without empty names corruption is never declared |
| WireLogs.PassMovesOn | Tools/dashboard.py:417-458 | what every pass of such a run keeps: the tail stands before a record of the log, with exactly the records before it delivered, and only an empty name has stopped it |
| WireLogs.ReplacedLogIff | Tools/dashboard.py:422-425 | all records of a complete, non-empty log without empty names are found from where a pass starts if and only if that is its first byte |
| WireLogs.ReplacedLogIsMissed | Tools/dashboard.py:422-425 | a log replaced by one that already reaches the old offset is parsed from that offset: its first record is missed |
| WireLogs.TailReplacedLog | Tools/dashboard.py:417-458 | however often the tail looks at both, the first record of the new log is not delivered |
| WireLogs.EmptyNameIsPublished | Source/Sink/GPSOpenClSink.hpp:41-52 | an empty name is accepted for publishing, and its record is taken for corruption |
| MedianSnap.SnapTransmitTimesToMedianArrival | Source/Pvt/GPSOpenClMeasurementAssembler.cpp:28-50 | every transmit time moves by its correction relative to the median; empty or unequal inputs are left alone |
| MedianSnap.Correction | Source/Pvt/GPSOpenClMeasurementAssembler.cpp:43-48 | a correction is minus one, zero or one period |
| MedianSnap.MovesIff | Source/Pvt/GPSOpenClMeasurementAssembler.cpp:39-48 | what is moved lies strictly between three and five quarters of a millisecond from the median, and moves by one millisecond toward it |
| MedianSnap.MedianIsUnique | Source/Pvt/GPSOpenClMeasurementAssembler.cpp:35-37 | the median does not depend on the sort |
| MedianSnap.ShiftChangesNothing | Source/Pvt/GPSOpenClMeasurementAssembler.cpp:35-48 | adding a constant to all arrivals moves the median with them and changes no correction |
| MedianSnap.CorrectionIsStep | Source/Pvt/GPSOpenClMeasurementAssembler.cpp:43-48 | near a common grid, within an eighth of a period, the correction is exactly the number of grid steps to the median |
| MedianSnap.SnapRepairs | Source/Pvt/GPSOpenClMeasurementAssembler.cpp:28-50 | so when no arrival is more than a step from the median, all end within 2e of it |
| MedianSnap.TwoStepsStay | Source/Pvt/GPSOpenClMeasurementAssembler.cpp:45 | an arrival one and a half periods or more away is never moved |

## Left out

- The OpenCL path: buffers, kernels, the batch search and its fallback conditions. The host path is modelled.
- Floating-point rounding, overflow and NaN.
- Division by a zero range, and the Sagnac correction and square roots behind a line of sight: a sight is what the solver is given.
- Orbits, geodetic conversion, Klobuchar and Saastamoinen delays, elevation and the rotation of the dilution matrix into local axes.
- Scale factors of the navigation fields: the model stops at raw integers and the time-of-week count.
- The ionospheric page of subframe 4, `mergeSubframe` and the ephemeris mask: copying of decoded fields.
- Loop filters and lock indicators: whether a block was good is an arbitrary input.
- C/A code tables: any table of 1023 entries.
- The queue between a publishing call and the log writer: whether it has a slot is part of each call; `BoundedQueues` models the queue itself.
- Telemetry contents, consoles, profiling, settings, threads' creation and timing.
- Memory-order effects: steps are sequentially consistent, the orders the source asks for are not modelled.
- Search failures by exception in the acquisition thread: they deliver a result like any other.
- Opening the log again between two passes: each pass is given the file that is there, which only grows during a run of passes.
- Exceptions inside the tail parser, and the mode switch to the message socket, which only stops a pass.
- The three sample histories are sequences that grow and are cut; their capacity and reallocation are not modelled, only their length.
- The six lanes and six sums of the correlator are one array and one record of six fields each.
- `GpsEphemeris` is a value returned by the decoder instead of a structure filled through a reference, so fields an earlier subframe left behind do not appear.
- The channel appears twice, once with its lifecycle fields and once with its navigation history; that losing the lock resets the history is the reset step of a run, not a call between the two.
- The metrics mutex of a channel, and the recycling of input buffers between consumer and acquisition thread.
