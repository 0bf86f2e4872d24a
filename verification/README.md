# Verified models of the audit engine's numeric and state-changing core

The repository screens voice telemetry for synthetic audio. Packets arrive through an XDP filter
and a lock-free queue, features are computed from sample arrays (variance, zero crossings,
spectral flatness, an FFT with two spectral features, cross-correlation), a database function
flags outliers, and an HTTP service meters its clients and takes PayPal payments. This project
models those parts in Dafny and proves what they guarantee, over every input and every run.
`dafny verify dfyconfig.toml` checks the whole project; nothing was executed.

Three conventions hold throughout.

- Floats are exact reals and money is whole cents. Library roots, `std::abs`, `std::pow(x, 1/n)`
  and the twiddle exp(2 pi i / n) are parameters, described only by the laws a proof uses
  (`IsSqrt`, `IsAbs`, `IsRoot`, `Twiddles`). For the twiddles the laws are: the one for n = 2 is -1,
  the one for n = 1 is 1, and each is the square of the one for twice the size; `TwiddlesExist` shows
  that such twiddles exist at every size.
- Code that updates state is a method over an array or a class with the same fields. Its contract
  ties the new state to a function, and the lemmas are about that function.
- `size_t` is a word: `ToWord` reduces modulo 2^64 and `BitAnd` is the bitwise mask.

| file | models |
|---|---|
| `ComplexNumbers`, `Fft`, `FftInverse`, `FftLengths`, `TwiddleLaws`, `Spectrum` | core/frequency_analyzer.cpp |
| `Words`, `QueueProtocol`, `LockFreeQueue` | core/lockfree_queue.cpp |
| `Sums`, `VectorMath` | core/avx512_math.cpp, db/functions/calculate_variance.sql |
| `Correlation` | core/multi_channel_core.cpp |
| `Flatness` | core/deepfake_detector.cpp |
| `Anomaly` | db/functions/detect_anomaly.sql |
| `TokenBucket`, `RateLimiter` | api/middleware/rate_limiter.py |
| `FreeLists`, `MemoryPool` | core/memory_pool.cpp |
| `PacketFilter` | core/nic_xdp.c |
| `PaymentLedger`, `PaymentRows`, `PaymentSteps`, `PaymentOrigins` | api/routers/paypal.py |
| `Powers`, `RealFacts`, `Options` | shared arithmetic and the option type |

## Where the code and its promise differ

- The inverse FFT divides by the current length at every recursion level. It therefore returns the
  signal divided by 2^(k(k-1)/2), and is an inverse only for n <= 2 or the zero signal
  (`RoundTripExactWhen`). With one division at the top it would be exact (`SingleDivisionRoundTrip`).
- The recursion computes a DFT of every signal exactly when the length is a power of two
  (`TransformIsDftWhen`).
- The queue's capacity loop ends exactly for requests up to 2^63 (`DoublingReaches`).
- The merge test of the memory pool leaves the header out, so on a list that tiles the pool no
  blocks ever merge (`TiledNeverMerges`). Where the test does hold, the join counts a header that is
  not there, so three abutting free blocks become two that overlap (`JoinedBlocksOverlap`);
  `MergeKeepsApartWhen` says for which lists this happens. Rounding up to 8 bytes keeps a request
  exactly when the addition does not wrap (`RoundUpSufficesWhen`).
- With the default threshold 2.5, the outlier function can give a score-based flag exactly from
  nine values on (`DefaultThreshold`).
- The completed-payment webhook is commented "if not already added" but sets the status before it
  reads it, so on its own it never credits (`WebhookNeverCredits`). An order paid through it alone
  stays uncredited (`WebhookAloneLeavesUncredited`). Another handler's run between its update and
  its read makes it credit exactly when that run writes another status to the stored order or
  stores the order only then, for an order that names a client (`InterruptedWebhookCreditsWhen`).
  One completed capture is then credited twice (`CreditedTwice`). With webhooks that start once
  their order is stored, all interleavings keep the credits of an order that names a client within
  its completed captures exactly if no denial, failed capture or refund of a transaction of the
  order can come along with a completed webhook (`CapturesBoundCreditsWhen`).
- Neither the capture nor the refund handler looks at the status: an order that names a client is
  credited for every completed capture and deducted for every refund event (`LogIsTrace`).
- A bucket overfills exactly for negative amounts, which the limiter does not refuse
  (`LevelKeptWhen`).

## Model

| member | source | states |
|---|---|---|
| Fft.SimpleFft | core/frequency_analyzer.cpp:7-38 | The in-place recursion, for every length and both directions, leaves in the vector what the recursive specification `Transform` says. |
| Fft.BinFromHalves | core/frequency_analyzer.cpp:15-31 | The polynomial value at w^i and at w^(i+n/2) follows from the two half-size spectra by one sum and one difference, given w^(n/2) = -1. |
| Fft.TransformIsDft | core/frequency_analyzer.cpp:7-38 | For every signal of 2^k samples the result is the direct sum over j of x[j] w^(jk), in the inverse direction scaled by the product of all level divisions. |
| FftLengths.TransformIsDftWhen | core/frequency_analyzer.cpp:9-31 | The forward recursion equals the DFT on all signals of a length if and only if the length is a power of two. |
| TwiddleLaws.TwiddlesExist | core/frequency_analyzer.cpp:23-25 | The laws asked of the twiddles are met at every size by repeated half angles, given square roots. |
| FftInverse.EvenBins | core/frequency_analyzer.cpp:15-18 | The even bins of a spectrum are the spectrum of the two halves of the signal added. |
| FftInverse.OddBins | core/frequency_analyzer.cpp:15-18 | The odd bins are the spectrum of the difference of the halves, twisted by powers of the twiddle. |
| FftInverse.InverseDft | core/frequency_analyzer.cpp:23-31 | Transforming with w and then with 1/w multiplies every sample by n. |
| FftInverse.SingleDivisionRoundTrip | core/frequency_analyzer.cpp:33-37 | One division by n at the top of the inverse direction gives the signal back exactly. |
| FftInverse.RoundTrip | core/frequency_analyzer.cpp:20-37 | With the division at every level, as written, inverse after forward is the signal times 2^-(k(k-1)/2). |
| FftInverse.RoundTripExactWhen | core/frequency_analyzer.cpp:33-37 | The code's inverse undoes its forward transform if and only if n <= 2 or the signal is zero. |
| Spectrum.MirroredBins | core/frequency_analyzer.cpp:41-51 | For real samples bins i and n - i are conjugate. |
| Spectrum.GetDominantFrequency | core/frequency_analyzer.cpp:40-61 | The result is bin/n for the first bin of greatest non-zero magnitude in 1..n/2-1 (0 if there is none), in [0, 1/2). |
| Spectrum.PeakOfWholeSpectrum | core/frequency_analyzer.cpp:48-60 | For real input that bin is maximal among all bins except 0 and n/2, and it is 0 exactly when all of those vanish. |
| Spectrum.GetSpectralCentroid | core/frequency_analyzer.cpp:63-83 | The loop computes the magnitude-weighted mean frequency of the lower half, or 0 below the cutoff. |
| Spectrum.CentroidBalances | core/frequency_analyzer.cpp:71-82 | That result is 0 for a total magnitude below 1e-6, and otherwise the one c for which the sum of (i/n - c) times the magnitude of bin i over the lower half is 0. |
| Spectrum.CentroidOfOneBin | core/frequency_analyzer.cpp:74-82 | If only bin m of the lower half has a magnitude, of at least 1e-6, the centroid is m/n. |
| Spectrum.CentroidIsZeroWhen | core/frequency_analyzer.cpp:74-82 | It is 0 if and only if the total is below 1e-6 or all of it lies in bin 0. |
| Spectrum.CentroidInRange | core/frequency_analyzer.cpp:71-82 | That mean lies in [0, 1/2) for every spectrum. |
| Words.MaskIsRemainder | core/lockfree_queue.cpp:26-39 | Masking with a power of two less one is the remainder by that power. |
| Words.WordDistance | core/lockfree_queue.cpp:22-47 | The wrapped difference of two index words is the distance of the counters behind them, and the words are equal only if the counters are. |
| QueueProtocol.DoKeepsInv | core/lockfree_queue.cpp:18-58 | Every single step of either thread keeps the queue invariant: unread slots hold the pushed packets, and loaded indices stay usable. |
| QueueProtocol.WrappedStep | core/lockfree_queue.cpp:18-58 | Each step on index words is the same step on unbounded counters, wrapped. |
| QueueProtocol.RunOfWords | core/lockfree_queue.cpp:18-58 | So is every run from the empty queue, under every interleaving. |
| QueueProtocol.EveryRunIsSafe | core/lockfree_queue.cpp:18-58 | In every interleaving the popped packets are a prefix of the pushed ones, occupancy is within capacity, no slot is about to be written and read at once, and `size` and `full` are in range. |
| QueueProtocol.EveryStepIsAtomic | core/lockfree_queue.cpp:18-48 | Each push and pop takes effect in one of its own steps as on a bounded FIFO; it is refused exactly when that FIFO is full or empty, the producer's `size` is exact and the consumer's never exceeds what is held. |
| QueueProtocol.ConsumerSizeIsSnapshot | core/lockfree_queue.cpp:44-58 | Whatever the producer does between its two loads, the consumer's `size` and `full` answer for the contents at the first. |
| LockFreeQueue.DoublingReaches | core/lockfree_queue.cpp:9 | The doubling loop can reach a request if and only if it is at most 2^63. |
| LockFreeQueue.CapacityFor | core/lockfree_queue.cpp:4-10 | The loop ends with the least power of two not below the request. |
| LockFreeQueue.Queue.constructor | core/lockfree_queue.cpp:4-12 | The new queue is the protocol's initial state at that capacity. |
| LockFreeQueue.Queue.Push | core/lockfree_queue.cpp:18-29 | An uninterrupted push is its four protocol steps, appends the packet if there is room and refuses exactly when full. |
| LockFreeQueue.Queue.Pop | core/lockfree_queue.cpp:31-42 | An uninterrupted pop is its four protocol steps, and takes the oldest packet or reports an empty queue. |
| LockFreeQueue.Queue.Size | core/lockfree_queue.cpp:44-48 | The difference of the index words is the number of packets held. |
| LockFreeQueue.Queue.Full | core/lockfree_queue.cpp:54-58 | True exactly when capacity many packets are held. |
| VectorMath.MeanAvx512 | core/avx512_math.cpp:49-67 | Blocks of 16 lanes, one reduction and the tail give the scalar mean, at every positive length. |
| VectorMath.DotProductAvx512 | core/avx512_math.cpp:69-89 | The same for the inner product, at every length. |
| VectorMath.VarianceAvx512 | core/avx512_math.cpp:5-47 | The same for the two-pass variance, at every positive length. |
| VectorMath.ArrayVariance | db/functions/calculate_variance.sql:3-28 | The SQL loop gives that same variance, and NULL for an empty array. |
| VectorMath.VarianceIsMeanOfSquares | core/avx512_math.cpp:29-46 | The variance is the mean of squares less the squared mean. |
| VectorMath.VarianceSign | core/avx512_math.cpp:29-46 | It is never negative, and zero if and only if the data are constant. |
| VectorMath.VarianceOfShift | core/avx512_math.cpp:29-46 | Adding a constant to the data does not change it. |
| VectorMath.CrossingsOfBlock | core/avx512_math.cpp:108-118 | A shifted block counts each adjacent pair that ends in it exactly once. |
| VectorMath.CrossingsAreSignChanges | core/avx512_math.cpp:94-98 | The count is the number of places where the signal goes from below zero to at least zero or back. |
| VectorMath.ZcrAvx512 | core/avx512_math.cpp:91-127 | The block-wise rate is the scalar count of sign changes over the length, in [0, 1). |
| VectorMath.CrossingParity | core/avx512_math.cpp:94-98 | The count is odd if and only if the first and last samples differ in sign. |
| Sums.CauchySchwarz | core/multi_channel_core.cpp:70-80 | The squared numerator is at most the product of the two denominators, with the exact equality case. |
| Correlation.DetectCrossCorrelation | core/multi_channel_core.cpp:64-86 | One pass over both channels computes the correlation of the centred channels, or 0 for a tiny denominator. |
| Correlation.CorrelationFromPairs | core/multi_channel_core.cpp:67-85 | With P(x, y) the sum over pairs i < j of (x_i - x_j)(y_i - y_j): the result is 0 if P(a, a) P(b, b) < (n 1e-6)^2, and otherwise has the sign of P(a, b) and a square that times P(a, a) P(b, b) is P(a, b)^2. |
| Correlation.CorrelationIsFit | core/multi_channel_core.cpp:74-85 | Past the cutoff, 1 - r^2 of the spread of one channel is the least squared error of fitting it by a multiple of the other, attained at the ratio of the inner products. |
| Correlation.CorrelationOfAffine | core/multi_channel_core.cpp:67-85 | A gain and an offset on one channel keep the result or, for a negative gain, change its sign, as long as both pass the cutoff. |
| Correlation.CorrelationInRange | core/multi_channel_core.cpp:82-85 | The result always lies in [-1, 1]. |
| Correlation.CorrelationExtremeWhen | core/multi_channel_core.cpp:82-85 | It is 1 or -1 if and only if the centred channels are proportional and the denominator passes the cutoff. |
| Correlation.CorrelationOneWhen | core/multi_channel_core.cpp:82-85 | It is 1 exactly for a positive multiple, and -1 exactly for a negative one. |
| Correlation.CorrelationSymmetric | core/multi_channel_core.cpp:64-86 | Exchanging the channels does not change it. |
| Flatness.CalculateSpectralFlatness | core/deepfake_detector.cpp:71-83 | The loop computes the ratio of the product of roots to the mean magnitude, or 1 below the cutoff. |
| Flatness.FlatnessFromMagnitudes | core/deepfake_detector.cpp:75-82 | With mean magnitude m the flatness f is 1 for m < 1e-6 or no samples, and otherwise the positive f with (f m)^n the product of the magnitudes, each raised by 1e-10. |
| Flatness.MeansInequality | core/deepfake_detector.cpp:75-79 | The product of any number of positive values is at most the power of their mean. |
| Flatness.MeansEqualWhen | core/deepfake_detector.cpp:75-79 | Product and power of the mean are equal if and only if all values are. |
| Flatness.FlatnessInRange | core/deepfake_detector.cpp:71-83 | The flatness of every array lies in (0, 1.0001]. |
| Flatness.FlatnessExtremeWhen | core/deepfake_detector.cpp:77-82 | The flatness is 1.0001 if and only if there are samples and all have magnitude 1e-6. |
| Anomaly.DetectStatisticalAnomaly | db/functions/detect_anomaly.sql:3-33 | One flag per value in order: all TRUE without a usable deviation, else whether the score exceeds the threshold. |
| Anomaly.FlaggedWhen | db/functions/detect_anomaly.sql:15-31 | For every array and threshold k, a value of deviation d is flagged if and only if all values are equal, or k is negative, or (n - 1) d^2 exceeds k^2 times the sum of the squared deviations. |
| Anomaly.FlagCountBound | db/functions/detect_anomaly.sql:15-31 | With m flags and threshold k, m k^2 <= n - 1, strictly when m > 0. |
| Anomaly.FlagPossibleWhen | db/functions/detect_anomaly.sql:24-29 | Some n values get a score-based flag if and only if n k^2 < (n - 1)^2. |
| Anomaly.DefaultThreshold | db/functions/detect_anomaly.sql:3-6 | With threshold 2.5 that happens if and only if n >= 9. |
| TokenBucket.RunInRange | api/middleware/rate_limiter.py:20-32 | The stored level stays in [0, capacity] over every run. |
| TokenBucket.LevelKeptWhen | api/middleware/rate_limiter.py:31-33 | Asking for an amount keeps every bucket within capacity, at every time, if and only if the amount is not negative. |
| TokenBucket.WindowBound | api/middleware/rate_limiter.py:16-36 | The tokens granted in any time window [s, t] of any run are at most capacity + rate (t - s). |
| TokenBucket.GrantedWhen | api/middleware/rate_limiter.py:16-36 | In every run from every bucket a call is granted if and only if, from each call up to it, the tokens granted since with those asked are at most capacity + rate times the time in between, and for a bucket already filled at most its level + rate times its age. |
| TokenBucket.WaitCoversShortfall | api/middleware/rate_limiter.py:34-36 | After a refusal, wait times rate is exactly by how much the call asked more than would have been granted. |
| TokenBucket.DeletingRefusals | api/middleware/rate_limiter.py:20-36 | Deleting any set of refused calls from a run changes no other outcome. |
| TokenBucket.WaitIsExact | api/middleware/rate_limiter.py:34-36 | After a refusal the amount is to be had exactly from the announced instant on, or never if it exceeds the capacity. |
| TokenBucket.SecondTryWhen | api/middleware/rate_limiter.py:31-36 | A second try is granted if and only if the wait is over and the amount is within the capacity. |
| TokenBucket.RetriesUntilReady | api/middleware/rate_limiter.py:20-36 | Retries before that instant are refused and do not delay it; one at it is granted. |
| RateLimiter.Limiter.Consume | api/middleware/rate_limiter.py:16-36 | The two tables change for the key as the bucket rule says, and for no other key. |
| RateLimiter.ClientsAreIndependent | api/middleware/rate_limiter.py:69-77 | Over every run of requests each client's outcomes equal those of a run with that client alone. |
| RateLimiter.Middleware.EachClientAlone | api/middleware/rate_limiter.py:69-77 | So do the replies the middleware object has given so far. |
| RateLimiter.Middleware.GrantedWhenServed | api/middleware/rate_limiter.py:69-77 | Each request was granted if and only if, from each earlier one of its client, the grants since with this one are at most the burst + rate/60 per second in between. |
| RateLimiter.Middleware.LimiterFor | api/middleware/rate_limiter.py:69-76 | A limiter is created once per client, shared with nobody, and has not seen its client before. |
| RateLimiter.Middleware.Admit | api/middleware/rate_limiter.py:69-77 | A request takes one token from its own client's bucket and leaves all others alone; buckets and replies stay those of the requests served. |
| RateLimiter.Middleware.Handle | api/middleware/rate_limiter.py:47-83 | Exempt paths and other protocols touch no bucket; otherwise the key, or else the host, names the client that pays. |
| FreeLists.MergeConserves | core/memory_pool.cpp:101-113 | Merging conserves all bytes, headers included, and keeps the used blocks and their order. |
| FreeLists.MergeIsComplete | core/memory_pool.cpp:101-113 | After one pass no neighbours meet the merge test. |
| FreeLists.MergeChangesWhen | core/memory_pool.cpp:105-110 | A pass changes nothing if and only if no neighbours met the test before. |
| FreeLists.MergeIsIdempotent | core/memory_pool.cpp:101-113 | A second pass changes nothing. |
| FreeLists.TiledNeverMerges | core/memory_pool.cpp:105-107 | On a list where header and data tile the pool no blocks merge. |
| FreeLists.MergeKeepsApartWhen | core/memory_pool.cpp:105-108 | After a pass no block reaches into the next if and only if before it each block, with a header added where it is joined to the one before, ends before the next begins. |
| FreeLists.JoinedBlocksOverlap | core/memory_pool.cpp:105-108 | Three abutting free blocks of 8 bytes merge into two that overlap. |
| FreeLists.RoundUpSufficesWhen | core/memory_pool.cpp:60-61 | The rounded size is a multiple of 8, and covers the request if and only if adding 7 does not wrap. |
| FreeLists.AllocationFailsWhen | core/memory_pool.cpp:85-99 | No block is chosen if and only if every block is in use, smaller than the request or of size SIZE_MAX. |
| FreeLists.ReleaseAccounts | core/memory_pool.cpp:79-82 | Releasing a block keeps the byte counter right if and only if the block was in use or empty. |
| MemoryPool.Pool.Initialize | core/memory_pool.cpp:12-55 | One free block covers the mapping behind its header, its size reduced modulo 2^64 where the pool is smaller than a header, and the counters agree. |
| MemoryPool.Pool.FindFreeBlock | core/memory_pool.cpp:85-99 | The walk returns the first of the smallest sufficient free blocks, or null if there is none. |
| MemoryPool.Pool.Allocate | core/memory_pool.cpp:57-70 | That block, at the rounded size, is marked used and its data address returned; list and counter stay in order. |
| MemoryPool.Pool.MergeFreeBlocks | core/memory_pool.cpp:101-113 | The walk over the linked nodes performs exactly the merging pass on their values, in place. |
| MemoryPool.Pool.Deallocate | core/memory_pool.cpp:72-83 | The header before the pointer is freed and the list merged; the counter stays right exactly if the block was in use or empty, or, for a block that a merge has already absorbed, if it was empty. |
| MemoryPool.Pool.GetFreeBytes | core/memory_pool.cpp:119-121 | Free plus used bytes are the pool size, modulo 2^64 where the pool is smaller than a header. |
| MemoryPool.OneBlockOneAllocation | core/memory_pool.cpp:49-70 | A one-block list, as initialised, serves one allocation at a time and is restored by its release. |
| PacketFilter.Filter.ScanPayload | core/nic_xdp.c:68-76 | The loop decides whether the first eight payload bytes that exist are all equal. |
| PacketFilter.LowVarianceWhen | core/nic_xdp.c:68-76 | A payload is suspicious if and only if its first eight bytes take at most one value. |
| PacketFilter.Filter.UpdateBlockMap | core/nic_xdp.c:83 | An update is lost exactly when the key is new and the map is full. |
| PacketFilter.Filter.Handle | core/nic_xdp.c:32-95 | Every verdict, map entry and counter equals what the packet history says, including when the map is full. |
| PacketFilter.VerdictFromHistory | core/nic_xdp.c:49-85 | While the map has room for all suspicious sources, a UDP packet is dropped if and only if it is suspicious or five earlier ones of its source were. |
| PacketFilter.MapFillsUp | core/nic_xdp.c:49-83 | The map holds all suspicious sources up to 100000 of them, and then 100000. |
| PacketFilter.CountIsSize | core/nic_xdp.c:78-84 | The count behind a map entry is the number of suspicious packets of the source. |
| PacketFilter.CountersFromHistory | core/nic_xdp.c:50-91 | While the map has room, the two statistics are the numbers of UDP packets after five suspicious ones of their source, and of complete unsuspicious ones before. |
| PacketFilter.BlacklistedForGood | core/nic_xdp.c:49-58 | Once blacklisted, a source never gets another UDP packet through, whatever comes between. |
| PaymentLedger.Router.CreatePaymentOrder | api/routers/paypal.py:35-86 | An order is stored exactly for a positive amount and a new id, and the tables stay those of the trace. |
| PaymentLedger.Router.CapturePaymentOrder | api/routers/paypal.py:89-137 | Status, credit and redirect follow PayPal's report as written, and the tables stay those of the trace. |
| PaymentLedger.Router.PaypalWebhook | api/routers/paypal.py:140-229 | Each event changes the tables as written, an invalid signature changes nothing, and the tables stay those of the trace. |
| PaymentRows.RowIsLastWritten | api/routers/paypal.py:35-223 | After every trace an order is stored if and only if an event created it with a positive amount, with the client and amount of the first one, the status that the last event addressing it wrote (COMPLETED, FAILED, DENIED or REFUNDED, else PENDING) and the capture id of its last completion. |
| PaymentRows.RefundFinds | api/routers/paypal.py:204-215 | A refund event finds the order stored first among those whose last completion reported the refunded capture. |
| PaymentRows.EveryScheduleStatus | api/routers/paypal.py:89-223 | Under every interleaving each row has the status that the last call addressing it wrote, or PENDING. |
| PaymentLedger.BalanceIsNet | api/routers/paypal.py:102-223 | After every trace a client's balance is, over its orders, the amount times completed captures less refunds. |
| PaymentLedger.BalanceIsLog | api/routers/paypal.py:102-223 | Each balance is the sum of the amounts credited to the client less those deducted. |
| PaymentLedger.EveryEntryIsBacked | api/routers/paypal.py:115-223 | Every credit and deduction is for a stored order, of its client and by its positive amount. |
| PaymentLedger.LogIsTrace | api/routers/paypal.py:102-223 | A stored order with a client is credited exactly once for each completed capture since it was stored and deducted once for each refund event that finds it; any other order never. |
| PaymentLedger.CreditedAtMostOnce | api/routers/paypal.py:102-191 | The calls of `add_credits` for an order are at most the completed captures of it, however many webhooks arrive. |
| PaymentLedger.CreditedWhen | api/routers/paypal.py:102-191 | `add_credits` was called for an order if and only if some capture completed when the order was stored with a client. |
| PaymentLedger.WebhookNeverCredits | api/routers/paypal.py:169-191 | An uninterrupted completed-payment webhook credits nothing and changes no balance. |
| PaymentLedger.WebhookAloneLeavesUncredited | api/routers/paypal.py:169-191 | A stored order completed by the webhook alone is COMPLETED and not credited. |
| PaymentLedger.InterruptedWebhookCreditsWhen | api/routers/paypal.py:176-191 | With a handler run between its update and its read the webhook credits if and only if the order names a client and the run either writes another status to the stored order or stores it; a balance changes exactly then, unless the amount is 0. |
| PaymentSteps.AloneIsStep | api/routers/paypal.py:89-223 | A handler whose awaited calls nothing interrupts does exactly what its ledger event does. |
| PaymentSteps.SerialIsRun | api/routers/paypal.py:89-223 | Schedules that run the handlers one after another are the runs of the ledger. |
| PaymentSteps.InterruptedIsHalves | api/routers/paypal.py:176-191 | A webhook with whole runs of other handlers after its update is the update, those runs, and then the read and credit. |
| PaymentSteps.EveryScheduleAccounts | api/routers/paypal.py:89-223 | Under every interleaving of any number of handlers, each balance is the sum of its credits less deductions, each for a stored order of that client by its amount. |
| PaymentSteps.EveryScheduleBounded | api/routers/paypal.py:102-191 | Under every interleaving an order is credited at most once for each completed capture and completed-payment webhook begun for it. |
| PaymentSteps.QuietSchedulesCreditCaptures | api/routers/paypal.py:102-212 | If its webhooks start once it is stored and no call writes another status than COMPLETED to it, then under every interleaving at most once for each completed capture. |
| PaymentOrigins.EverythingIsSent | api/routers/paypal.py:35-223 | Under every interleaving each row, its transaction and each handler in flight stem from an event that was sent. |
| PaymentOrigins.CreditedTwice | api/routers/paypal.py:102-203 | A capture and a denial between a webhook's update and its read credit the client twice for one completed capture. |
| PaymentOrigins.CapturesBoundCreditsWhen | api/routers/paypal.py:35-223 | For a set of events, each sent any number of times with webhooks after their order is stored, every interleaving credits an order at most once for each completed capture if and only if the set lacks a completed webhook for it, or a creation of it for a client, or a failed capture, denial or refund of a transaction that some event gives it. |

## Left out

- Rounding, overflow and NaN of floats, and so the division by zero at length 0 in the numeric kernels, in `GetDominantFrequency` and in `DetectCrossCorrelation`, whose contracts ask for a positive length.
- The AVX-512 instructions themselves: a register is a sequence of 16 reals, the reduction is its sum, and `_mm512_sign_ps`, which has no definition, is read as the scalar test `x >= 0`.
- Trigonometry: `Fft.TransformIsDft` and the round trips take the twiddles as parameters with the stated laws.
- Weak memory orders: the queue's atomic loads and stores are sequentially consistent steps.
- `size`, `empty` and `full` called by a third thread, whose two loads may straddle updates from both sides.
- LockFreeQueue.CapacityFor: does not model the endless loop for requests above 2^63; `LockFreeQueue.DoublingReaches` says which those are.
- `mmap`, `munmap` and `shutdown`; a block header is an object found at its address, four words long, and what a client writes into its block does not reach it.
- Header parsing, per-CPU map copies and concurrent packets in the XDP filter; 64-bit wrap-around of its two statistics counters.
- NULL array elements and `rolling_window_anomaly`, a single grouping query.
- `json_array_variance`, which converts and delegates.
- Finding the API key among the headers; the key and the host are parameters of `RateLimiter.Middleware.Handle`.
- TokenBucket.WindowBound: does not cover negative amounts, clocks that run backwards or negative rates; by `TokenBucket.LevelKeptWhen` every negative amount overfills some bucket.
- `add_credits` and `deduct_credits`, which the billing service in the repository does not define: they are modelled as adding to and subtracting from the client's balance.
- Exceptions from database calls inside a payment handler, and the columns of `payment_orders` that decide nothing (currency, time stamps, `webhook_verified`).
- PaymentLedger.BalanceIsNet: takes handler runs as uninterrupted; for interleaved ones `PaymentSteps.EveryScheduleAccounts` says what a balance is.
- Database and billing calls that overlap in time: in `PaymentSteps` each one is a step that happens at once.
- Voting and weighting in `analyze_voice_channel` and `ensemble_vote`, subscriptions, refunds started by an administrator, and all reporting routes: a few finite cases each.
