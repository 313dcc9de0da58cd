# A verified model of the Kafka client benchmark

The benchmark runs the same workloads through three Kafka clients and compares their latencies. Whether its numbers
mean anything depends on a small concurrent protocol - a producer loop that keeps a fixed number of messages in
flight, callbacks that arrive on other threads, a consumer thread that filters by an embedded timestamp, and three
phases of which only the last may leave traces - and on the algorithms that pace, encode, sample and aggregate. This
project states both in Dafny and proves what they keep.

## What is modelled

**One measured repeat** (`bench/runner.py`) is a transition system, in `Protocol`. A step is one atomic action of one
thread: each statement of the producer loop, the library accepting a message or completing it, a callback giving its
permit back and, as a separate step, counting its result, the broker exposing a message to the consumer, and the
consumer's check of its deadline and the stop flag, its poll and its deliveries. Clock readings are arguments of the
steps and never decrease. Drains between phases may leave callbacks behind, which then arrive in a later phase; a
drain may also raise, which aborts the run and sets the stop flag. A `Config` holds the window, the durations, the
slack of the consumer's deadline and four hypotheses that can be switched on: no two clock readings are equal
(`strictClock`), the broker shows no message twice (`noDuplicates`), drains leave nothing behind (`fullDrains`), and
no poll raises (`steadyConsumer`). With a rate, the record phase waits for its slot before it acquires. `Tallies`
counts messages by how far they have come, `Invariants` proves one invariant per part of the state and puts them
together, and `Safety`, `TiedClock`, `GateTies`, `Slack`, `Pacing`, `Progress`, `Termination` and `Ending` draw the
conclusions for all runs; `Readings` ties latencies to the clock readings of callbacks, and `Schedules` builds the
runs that serve as counterexamples. The objects that the threads share are the classes of `Runner` and `Metrics`;
their methods are proved to do what the steps do.

**The adapters** (`bench/clients/`) are three small machines in `Adapters`, each interleaving the statements of one
`produce_async` call with its library. They are proved to keep the submission protocol of `Contract`; `Progress` and
`Simulation` prove that this protocol is exactly what the run assumes of a call: for every run of an adapter there is
a schedule of the measured run that passes through the same submission states in the same order, and at each of them
has called the message back as often as the adapter has. The consumers' polling loops are in `Consumers`;
`ConsumerRuns` and `ConsumerTraces` prove that their behaviours are the consumer's steps of schedules, and that in
every run the consumer is such a loop.

**The pacer** (`bench/runner.py:89-104`) is the loop again, seen by its clock: `Pacer` takes all delays as inputs and
proves the max-plus closed form of the send times; `Pacing` proves its bounds for the messages of whole runs.

**The sequential parts** are the message codec (`Codec`), the resource sampler and its summary, which is read while
the sampler may still append (`Sampler`, `SummaryRace`), the order statistics (`Sorting`, `OrderStats`), grouping and
the report (`Grouping`, `Report`), and the workload matrix with its names and its cached index (`Names`,
`Enumeration`, `Matrix`, `Registry`), stated over arbitrary axes.

Clock readings in the run are whole nanoseconds; the times of `Pacer`, percentages and statistics are exact reals.

## Where the code does not meet its purpose

Each of these is kept as it is in the code, shown by a concrete input or run, and delimited by an exact condition.

- **A tie between clock readings lets an earlier phase leak.** The gate admits `produce_ts >= gate.start_ns`. On a
  clock that can return the same reading twice, a message stamped at the very reading that opens the gate is taken for
  a record message. At the opening of the gate, `Safety.OldAckCountedIffTie` and `TiedClock.OldSampleRecordedIffTie`
  say exactly when a late ack can still be counted, or an early message still be sampled by the consumer. Over
  configurations, `GateTies.EarlierSampledIff` proves that some run samples an early message if and only if
  readings can tie and the earlier phases send at all, complete drains or not; for the ack a drain that leaves a
  callback behind is needed as well (`GateTies.EarlierAckedIff`). On a strict clock the phases are isolated
  (`Safety.PhaseIsolation`).
- **The consumer can run out of time before the record window ends.** Its deadline adds 10 seconds to the three
  windows, while each drain may take 30. `Slack.ConsumerOutlasts` proves that it runs until it is stopped as long as
  drains, pauses and overshoots add up to less than that slack; `Slack.CutShortIff` proves, on strict clocks and on
  others, that for every amount a run which loses that much can end with an acked message that was never sampled if
  and only if the amount reaches the slack. Its hypothesis asks for windows and a slack of a few nanoseconds.
- **aiokafka can call back twice.** The success callback sits inside the `try`, so an exception out of it reaches the
  handler, which calls it again. It calls back at most once in every run if and only if the callback does not raise
  (`Adapters.AiokafkaAtMostOnceIff`). The runner's own callback does not, so the contract holds there.
- **Latency names are unique only for one ack level other than 0.** Idempotent cells are labelled with the effective
  acks, which folds all other levels into one name (`Matrix.LatencyNamesUniqueIff`). An axis with all of 0, 1 and
  "all", which the type of the axis admits, clashes (`Matrix.AllLevelsClash`); the configured axis has 0 and 1
  (`Registry.ShippedNamesUnique`).
- **The report depends on the order of the rows if a pair has two kinds**, since an aggregate takes the kind of its
  first row (`Report.ReportIndependentOfOrderIff`).
- **A window of zero blocks for ever** (`Progress.ZeroWindowBlocks`); any positive one cannot get stuck.
- **The send bound is N - 2 intervals, not N - 1.** The bound is attained for every rate and duration
  (`Pacer.SendsPossibleIff`), and with N - 1 it fails exactly for the largest N that it allows, which exists for every
  rate and duration (`Pacer.TighterBoundFailsIff`, `Pacer.SendBoundIsTight`).

## Model

| member | source | states |
|---|---|---|
| Safety.PermitConservation | bench/runner.py:76-117 | in every state of every run and for each phase, free permits plus permits held by messages, or by a producer between acquire and stamp, are the window; so no phase has more than a window of submissions outstanding, whether they succeed, fail later or are refused at once |
| Safety.OutstandingBound | bench/runner.py:215-258 | the three phases together never have more than three windows outstanding, and no more than one if drains are complete |
| Safety.SplitAccounting | bench/runner.py:79-117 | in every state, produced = acked + errors + uncounted for the record phase, and the uncounted are at most the window plus the threads between giving a permit back and counting |
| Safety.SettledAccounting | bench/runner.py:79-117 | when all record messages are through, produced = acked + errors |
| Safety.HistogramsMatchCounters | bench/metrics.py:37-45 | in every state, all histogram values lie between 1 ns and 60 s, histograms hold at most one value per counted event, and exactly one on a strict clock |
| Readings.CallbackFixes | bench/runner.py:78-87 | over every run: from a callback of a message on, whatever any thread does, the message carries that callback's outcome, and the time from its own stamp to the callback's reading as its latency |
| Safety.HistogramsExact | bench/metrics.py:37-45 | in every state of every run and on any clock, each phase's ack histogram is, as a multiset, what the differences between callback readings and stamps of its counted acks leave there, and the end-to-end histogram is, in order, what the differences between receipt and stamp of the recorded messages leave |
| Safety.AckStands | bench/runner.py:78-85 | if a schedule calls a message back at reading t and its ack is counted, the callback had no error, and t minus the message's own stamp stands in its phase's histogram, or 60 s if it is longer |
| Safety.CallbackStaysInPhase | bench/runner.py:76-87 | a callback, however late, touches permits and counters of its own phase only, and never the consumer's samples |
| Safety.PhaseIsolation | bench/runner.py:215-258 | pre-warm and discard never count anything as produced or consumed; unless a gate tie occurs (never on a strict clock) they never count an ack either, and everything the consumer records is a record-phase message |
| Safety.OldAckCountedIffTie | bench/runner.py:84-85 | when the gate opens, an earlier phase can still come to count an ack if and only if one of its unresolved messages carries the gate's own reading |
| Safety.TieLeaks | bench/runner.py:79-87 | constructs the schedule that brings a tied message into its phase's acked count |
| Safety.ConsumedWasProduced | bench/runner.py:138-145 | every recorded message was counted as produced before; with a broker that repeats nothing, consumed never exceeds produced |
| TiedClock.OldSampleRecordedIffTie | bench/runner.py:143-145 | when the gate opens, the consumer can come to record a message of an earlier phase if and only if one that is in its current batch, or that it has not passed or may see again in a poll it can still start before its deadline, carries the gate's own reading |
| GateTies.EarlierSampledIff | bench/runner.py:215-244 | over all configurations with pre-warm and discard windows that are not negative and a consumer deadline after them: some run records a message of an earlier phase if and only if readings can tie and pre-warm or discard sends at all, that is, has a duration and a positive window; complete drains, a broker without duplicates and a steady consumer make no difference |
| GateTies.EarlierAckedIff | bench/runner.py:215-244 | some run counts an ack for an earlier phase if and only if, besides, drains may leave callbacks behind |
| TiedClock.DriveConsumer | bench/clients/confluent.py:124-131 | a consumer reaches every position of its log that is in its batch or that it can still poll for, and records what the gate admits there |
| TiedClock.StopIffThrough | bench/runner.py:261-295 | in every run the stop flag is set if and only if the producer has finished or aborted |
| Ending.ThroughMeansStopped | bench/runner.py:261-295 | after that, in no continuation does the consumer pass another check, and at most the poll it is in still returns |
| Ending.StoppedCanLeave | bench/runner.py:266-267 | and a consumer at its check can leave at once |
| Ending.FinishInTime | bench/runner.py:262-266 | when the trailing wait ends without a time-out, as many record messages have been consumed as acked |
| Ending.FinishedInTimeIsComplete | bench/runner.py:258-267 | under complete drains, a strict clock and a broker without duplicates, a run that finishes without a time-out has acked <= consumed <= produced, and without errors all three are equal |
| Slack.Ledger | bench/runner.py:193-258 | over every schedule, the clock is the part of the three windows that is over plus the time lost in drains, pauses and overshoots |
| Slack.ConsumerOutlasts | bench/runner.py:200-202 | in every run, as long as the time lost is less than the slack of its deadline, a consumer whose polls do not raise has not left before the stop flag |
| Slack.CutShortIff | bench/runner.py:200-258 | on any clock and for every amount of lost time: a run that loses it can reach the end of the record window with its consumer gone and an acked message never consumed if and only if the amount reaches the slack; windows and slack are at least a few ticks, which the constants of the source exceed |
| Pacing.SendBound | bench/runner.py:89-106 | in every state of every run with a rate, the N messages of the record phase leave N - 2 intervals strictly within its window |
| Pacing.NeverEarly | bench/runner.py:97-104 | and the k-th of them is never stamped before the start of the schedule plus k intervals |
| Pacing.OneOvershoot | bench/runner.py:94-104 | in every state of every run, with or without a rate, only the last message of the current phase can carry a stamp at or past the phase's deadline |
| Pacing.PacedStep | bench/runner.py:89-104 | every step of any thread keeps next_send at the slot after the sends that left the pacer, the clock past the slot of the last of them, and the slot two checks back before the deadline |
| Invariants.InvReached | bench/runner.py:58-287 | the conjunction of all invariants below holds in every state of every run |
| Invariants.InvStep | bench/runner.py:58-287 | each single step of any thread keeps it |
| Invariants.PermitsStep | bench/runner.py:76-117 | each step keeps free plus held permits of a phase at the window |
| Invariants.CountsStep | bench/runner.py:79-117 | each step keeps each counter equal to the number of messages in the state it counts |
| Invariants.TimesStep | bench/runner.py:84-106 | each step keeps stamps before the clock, earlier stamps at or before the gate, record stamps at or after it, and counted acks on the admitted side |
| Invariants.HistogramsStep | bench/metrics.py:37-45 | each step keeps histograms in range and in step with their counters |
| Invariants.AckSamplesStep | bench/metrics.py:37-40 | each step keeps a phase's ack histogram equal to the samples of its counted messages |
| Invariants.E2eStep | bench/metrics.py:42-45 | each step keeps the end-to-end histogram equal to the latencies of the recorded messages, in order |
| Invariants.LogsStep | bench/runner.py:138-145 | each step keeps the consumer on accepted messages, received no earlier than stamped, recording only what it passed and the gate admits, and nothing twice if the broker repeats nothing |
| Invariants.DrainedStep | bench/runner.py:227-241 | under complete drains, each step keeps earlier phases without pending callbacks |
| Tallies.TalliedBoundsSet | bench/runner.py:105-106 | distinct messages of one status are no more than the count kept for that status; turns a subset of messages into an inequality of counters |
| Contract.AtMostOnce | bench/clients/base.py:18-34 | along every run of the submission protocol the callback comes at most once, has come exactly once when it is no longer owed, and never comes after a raise |
| Adapters.ConfluentStep | bench/clients/confluent.py:75-95 | every step of produce, the retry after a BufferError, and delivery reports is a step of the protocol, and the callback fires exactly when the protocol says so |
| Adapters.KafkaPythonStep | bench/clients/kafka_python.py:41-45 | the same for the future, which may complete before, between or after the two registrations |
| Adapters.AiokafkaStep | bench/clients/aiokafka_client.py:87-101 | the same for the scheduled coroutine, its error and cancellation paths included |
| Adapters.RunKeepsContract | bench/clients/base.py:18-34 | every run of every adapter is a run of the protocol with the same number of callbacks |
| Adapters.CallbackExactlyOnce | bench/clients/base.py:27-34 | for all interleavings, a call either raises and no callback ever comes, or its callback fires at most once, and exactly once when the call has returned and the library is done |
| Adapters.OutcomePassedOn | bench/clients/kafka_python.py:43-45 | for all interleavings and all three adapters, every on_ack is given an error if and only if the library's verdict on the message was failure |
| Adapters.AiokafkaAtMostOnceIff | bench/clients/aiokafka_client.py:94-99 | every run of the call fires at most once if and only if the callback does not raise, and never more than twice |
| Adapters.AiokafkaCanFireTwice | bench/clients/aiokafka_client.py:94-99 | a run in which it does |
| Adapters.ConfluentProducer.ProduceAsync | bench/clients/confluent.py:75-95 | counts a BufferError exactly when the first attempt meets one, raises exactly if the first attempt fails otherwise or the retry fails, and performs a run of the confluent machine |
| Progress.StepRespectsContract | bench/runner.py:107-117 | every step of the run moves every message by a step of the submission protocol |
| Progress.ContractIsAllowed | bench/runner.py:107-117 | and conversely, whatever the protocol lets a started call do next, the run can do |
| Progress.CallbacksFire | bench/runner.py:78-111 | over every schedule, the callback steps of a message are exactly the firings that the protocol sees |
| Simulation.ContractRunFollowed | bench/runner.py:107-117 | every run of the submission protocol, of any length, is part of a schedule of the measured run that passes through each of its states in turn |
| Simulation.AdapterFollowed | bench/runner.py:111 | for every run of each of the three adapters there is a schedule of the measured run that passes through the view of every state of the call in order, and up to each has taken as many callback steps for the message as the adapter has called on_ack, with the same outcome |
| Progress.BlockedHasPending | bench/runner.py:102 | a producer without a permit always has a message of its own phase whose completion or release is possible |
| Progress.NeverStuck | bench/runner.py:94-117 | with a positive window, some step of the loop or of a callback is always possible inside the loop |
| Progress.ZeroWindowBlocks | bench/runner.py:76-102 | with a window of zero the first acquire is never left, whatever the other threads do |
| Progress.LoopStepDecreases | bench/runner.py:94-117 | if each deadline check reads a later time than the check before it, every step of loop, library and callback uses up a potential of ticks to the deadline, place in the loop and pending callback work; other readings may tie |
| Progress.LoopScheduleBounded | bench/runner.py:94-117 | so any schedule inside the loop has at most as many such steps as the potential it starts with, however broker and consumer interleave |
| Progress.LoopEnds | bench/runner.py:94-117 | and when none of them is left to take, the producer is out of the loop |
| Progress.StrictClockAdvances | bench/runner.py:94-96 | every run on a strict clock meets that hypothesis |
| Termination.NeverStuckInRun | bench/runner.py:215-267 | with a positive window, until the producer is through and every callback counted, some step of producer, library or callback is possible without any drain raising, complete drains included |
| Termination.RunBounded | bench/runner.py:215-267 | a whole run has at most fifty such steps per tick of the three windows and a constant, however broker and consumer interleave, if the clock advances from check to check |
| Termination.RunEnds | bench/runner.py:215-267 | when none of them is left to take, the run has finished or aborted, the stop flag is set, every message is settled, and produced = acked + errors |
| Runner.OnAck | bench/runner.py:78-87 | releases one permit and leaves the counters as the run's release and count steps leave them, for success and error, with the gate open or closed |
| Runner.OnMessage | bench/runner.py:138-145 | drops unreadable bodies and otherwise changes the counters as the run's delivery step does; the explicit test for a positive stamp adds nothing to the gate's |
| Runner.SendOne | bench/runner.py:102-117 | acquires, overwrites the stamp field only, counts as produced if the gate admits the stamp; on a raise the permit is back and one error is counted |
| Runner.FilterSeesLastStamp | bench/runner.py:138-145 | whatever stamps the buffer held before, the consumer's filter decides by the last one |
| Metrics.LatencyMetrics.RecordAck | bench/metrics.py:37-40 | one more ack; a latency up to 60 s is recorded as it is, a longer one as 60 s, one that is not positive not at all; everything else unchanged |
| Metrics.LatencyMetrics.RecordE2e | bench/metrics.py:42-45 | the same for a consumed message |
| Metrics.AckAllRecords | bench/metrics.py:37-40 | after any list of latencies, acked has grown by its length and the histogram by exactly its positive members, clamped, in order |
| Metrics.E2eAllRecords | bench/metrics.py:42-45 | the same for consumed messages |
| Metrics.LatenciesRecordedAsTheyAre | bench/metrics.py:37-45 | latencies between 1 ns and 60 s stand in either histogram with their own values, in order |
| Pacer.Produce | bench/runner.py:89-104 | for any delays of the environment, the loop's send and stamp times are those of the recurrence, it sends exactly while the deadline check passes and stops at the first that fails |
| Pacer.ClosedForm | bench/runner.py:97-101 | with exact sleeps, send time k is the maximum of first arrival plus all gaps and, over every slot j from 1 to k, slot j plus the gaps since; the maximum is attained by one of them |
| Pacer.WithoutRate | bench/runner.py:89-104 | without a rate nothing waits: each send leaves when the delays before it are over |
| Pacer.NextSendIsMultiple | bench/runner.py:90-101 | the schedule is absolute: slot k is start + k intervals whatever happened in between |
| Pacer.NeverEarly | bench/runner.py:97-101 | no send leaves before start + k intervals, late sleeps included |
| Pacer.DriftBounded | bench/runner.py:97-101 | if the first arrival and every gap stay within delta, at most one interval, then every send is at most delta late |
| Pacer.SendBound | bench/runner.py:89-101 | N attempted sends fit N - 2 intervals strictly into the duration |
| Pacer.SendsPossibleIff | bench/runner.py:89-101 | for every rate and duration, N sends can be attempted if and only if N - 2 intervals fit strictly into the duration: the bound is attained everywhere |
| Pacer.TighterBoundFailsIff | bench/runner.py:89-101 | for every rate, duration and N, some call of N sends breaks the bound with N - 1 in place of N - 2 if and only if the duration lies above N - 2 and not above N - 1 intervals |
| Pacer.SendBoundIsTight | bench/runner.py:89-101 | and every rate and duration has such an N |
| Pacer.OneOvershoot | bench/runner.py:94-104 | with or without a rate, only the last message of a call can be stamped at or after the deadline |
| Codec.DecodeEncode | bench/workload.py:21-23 | decoding gives back every number that fits its field |
| Codec.EncodeDecode | bench/workload.py:21-23 | encoding gives back every byte string of its width |
| Codec.EncodingKeepsOrder | bench/workload.py:21-23 | byte strings compare lexicographically as the numbers do |
| Codec.KeysFollowSequence | bench/workload.py:50 | keys are equal only for equal sequence numbers and are in their order |
| Codec.PackInto | bench/workload.py:40-48 | packs in place between two untouched parts, or raises and leaves the buffer alone, exactly when the value does not fit its field or the field the buffer |
| Codec.Message.Stamp | bench/workload.py:39-40 | overwrites bytes 0 to 7 in place |
| Codec.MakeMessage | bench/workload.py:43-51 | the error for a size below the header and the one for a sequence number beyond 32 bits, each if and only if; otherwise header, filler and key in a new buffer |
| Codec.StampAllFrame | bench/workload.py:39-40 | after any series of stamps everything from byte 8 on is as before and the field holds the last stamp |
| Codec.RoundTrip | bench/workload.py:43-58 | for every sequence number, filler and series of stamps, parsing gives back the last stamp and the sequence number, bytes 8 to 11 are the key, the rest is the filler, and nothing from byte 8 on has changed |
| Codec.Generate | bench/workload.py:61-66 | messages 0, 1, 2, ... in pairwise separate buffers; all of the count are made exactly if the size allows a header and the last sequence number fits, and otherwise generation ends in an error |
| Sampler.ResourceSampler.Start | bench/metrics.py:110-116 | takes the first readings and keeps the samples |
| Sampler.ResourceSampler.Wake | bench/metrics.py:124-145 | one pass: without elapsed time nothing changes, otherwise one sample is appended and the readings move on; an unreadable resident size becomes 0 |
| Sampler.ResourceSampler.Run | bench/metrics.py:124-145 | any series of passes |
| Sampler.SamplesSay | bench/metrics.py:124-145 | sample by sample over any series of passes: which pass it is from, its wall time and percentages of user and system time since the pass before, its timestamp, and the resident size read or 0 |
| Sampler.Conservation | bench/metrics.py:110-145 | over any series of passes, skipped ones and failed readings included, percentages times wall time add up to the user and system time consumed since the start, and the sampled intervals to the wall time |
| Sampler.PeakAtLeastAverage | bench/metrics.py:153-158 | the reported user and system maxima are at least the true averages over the whole span |
| SummaryRace.ActKeepsInv | bench/metrics.py:147-161 | every read of the summary and every concurrent append keep the columns nested prefixes of the sample list |
| SummaryRace.SummaryReadsPrefixes | bench/metrics.py:147-161 | in every interleaving, a finished summary has used non-empty prefixes of the list for user, system and resident size, each at least as long as the one before and none longer than the reported count |
| SummaryRace.SummaryMedians | bench/metrics.py:155-160 | each median has at least half of the values it was taken from on either side |
| SummaryRace.EmptyMeansEmptyAtCheck | bench/metrics.py:148-149 | once there is a sample no summary reports none, and samples are only ever appended |
| Sorting.Sort | bench/metrics.py:167 | Python's sorted: a sorted rearrangement |
| Sorting.SortStable | bench/reporting.py:209-216 | as Python's sorted is: elements tied with any given one keep their order |
| Sorting.SortIgnoresOrder | bench/reporting.py:209-216 | without ties, the result does not depend on the input's order |
| Sorting.InsertInterlaces | bench/metrics.py:167-169 | one more value moves each order statistic by at most one place |
| OrderStats.MedianHalves | bench/metrics.py:164-169 | at least half of the values lie on either side of the median |
| OrderStats.QuartilesUnclampedIff | bench/reporting.py:117-120 | both quartile positions fall inside the data without clamping if and only if there are four values or more, which is the code's guard; the weights then are 0 to 3 quarters |
| OrderStats.QuartileExact | bench/reporting.py:119-120 | quartile i of n values is the interpolation with i * (n + 1) % 4 quarters between the sorted values at i * (n + 1) / 4 - 1 and the next |
| OrderStats.IqrExact | bench/reporting.py:117-120 | the range is the third quartile minus the first, both spelled out |
| OrderStats.IqrOfLadder | bench/reporting.py:110-120 | on n equally spaced values, in any order, it is (n + 1) / 2 steps |
| OrderStats.IqrWithinRange | bench/reporting.py:110-120 | 0 <= iqr <= max - min, for any number of values |
| OrderStats.IqrAffine | bench/reporting.py:110-120 | shifting all values leaves the range alone, scaling by a factor of zero or more scales it |
| OrderStats.StatisticsIgnoreOrder | bench/reporting.py:98-104 | median, quartile range, minimum and maximum do not depend on the order of the values |
| OrderStats.MinMaxAreEnds | bench/reporting.py:100-104 | minimum and maximum are the ends of the sorted list |
| OrderStats.ReplaceOne | bench/reporting.py:98-103 | replacing one value moves each order statistic no further than its old neighbours |
| OrderStats.EditsShift | bench/reporting.py:98-103 | replacing r values moves none by more than r places |
| OrderStats.MedianRobust | bench/metrics.py:164-169 | after r replacements the median of an odd list lies between the old order statistics r places away, that of an even list within the same average shifted by r |
| OrderStats.QuartileRobust | bench/reporting.py:110-120 | after r replacements each quartile lies within the same interpolation shifted by r places, where those places exist |
| Grouping.GroupBy | bench/reporting.py:82-84 | the setdefault-append loop gives the distinct keys and, for each, exactly the filtered subsequence of its items |
| Grouping.KeysInOrderOfAppearance | bench/reporting.py:82-87 | keys are listed by first appearance |
| Grouping.KeysDistinct | bench/reporting.py:82-84 | and only once |
| Grouping.KeysAreThoseOfMembers | bench/reporting.py:82-84 | a key is listed exactly if some item has it, and exactly if its group is not empty |
| Grouping.GroupsPartition | bench/reporting.py:82-84 | the group sizes add up to the number of items |
| Report.ComputeAggregates | bench/reporting.py:81-107 | one entry per pair in order of first appearance, computed from exactly that pair's rows |
| Report.ColumnsOfEntry | bench/reporting.py:88-104 | each column of a pair's entry, from the fields of exactly its rows, missing percentiles counting as 0 |
| Report.RepeatsSumToRows | bench/reporting.py:97 | the repeats of all entries add up to the number of rows |
| Report.AggregatePairsDistinct | bench/reporting.py:87-92 | the entries are those of the pairs in order of first appearance, and no pair has two |
| Report.AggregatesIgnoreOrder | bench/reporting.py:81-107 | if rows of one pair agree on their kind, rearranged rows give the same entries |
| Report.WriteReport | bench/reporting.py:201-225 | one section per kind in sorted order, each with that kind's entries sorted by workload and client, and the largest number of repeats |
| Report.DocumentListsAggregates | bench/reporting.py:203-222 | every entry stands in a section, that of its kind, and nothing else stands anywhere |
| Report.DocumentSorted | bench/reporting.py:207-216 | sections strictly ascend by kind, lines ascend by workload and then client, and the number of repeats is the largest of any entry |
| Report.TextLeqIff | bench/reporting.py:209-216 | ascending means: a prefix first, and otherwise the smaller character at the first difference |
| Report.DocumentIgnoresOrder | bench/reporting.py:201-225 | entries that their pair determines give the same document in any order |
| Report.ReportIndependentOfOrderIff | bench/reporting.py:237-245 | from rows to document: every rearrangement of the rows gives the same report if and only if rows of one pair agree on their kind, whatever the rounding |
| Report.KindClashShows | bench/reporting.py:96 | two rows that disagree: which one comes first shows in the report |
| Report.TextTotal | bench/reporting.py:209-216 | string comparison is total and ties only equal strings |
| Names.DecimalRoundTrip | bench/config.py:98-101 | the number in a name can be read back |
| Names.SplitJoin | bench/config.py:98-101 | the words of a name can be told apart again |
| Names.NameRoundTrip | bench/config.py:98-101 | a parser recovers size, effective acks, compression, idempotence and window from a latency name, and the parts of every other family's names |
| Names.NamesInjective | bench/config.py:98-191 | two labels of any families have the same name only if they are the same |
| Names.Spelling | bench/config.py:98-191 | the texts around the values in each kind of name |
| Matrix.LatencyWorkloads | bench/config.py:64-113 | the five nested loops list, in order, the workloads of exactly the cells defined by iteration over the axes |
| Matrix.CellsAreEnumerated | bench/config.py:76-87 | a combination of axis values is listed if and only if it is not idempotent with acks 0 |
| Matrix.CellsDistinct | bench/config.py:76-87 | and only once if no axis repeats a value |
| Matrix.LatencyNamesUniqueIff | bench/config.py:83-101 | for axes with any ack levels, "all" included, latency names are unique if and only if there is at most one level other than 0, or idempotence is not in the matrix, or the matrix is empty |
| Matrix.ClashIfMore | bench/config.py:83-101 | two cells that share a name in any other matrix |
| Matrix.AllLevelsClash | bench/config.py:12 | the ack axis of all three levels that the source's type admits is such a matrix |
| Matrix.LatencyNamesTell | bench/config.py:87-111 | every latency workload is configured as its name says, with the fixed settings of its kind; idempotence pins acks to "all" and five requests in flight, otherwise the window decides, five at the least |
| Matrix.CombinationListed | bench/config.py:76-111 | and every combination but idempotence with acks 0 has such a workload |
| Matrix.LatencyCount | bench/config.py:64-113 | the size of the matrix in closed form, for any axes, repeated values included |
| Registry.ThroughputWorkloads | bench/config.py:116-142 | the four nested loops list the workloads of the axes' combinations |
| Registry.ConsumerWorkloads | bench/config.py:145-179 | two workloads per size |
| Registry.AllWorkloads | bench/config.py:198-204 | the four families one after the other |
| Registry.FamilyNamesTell | bench/config.py:116-195 | every other workload is configured as its name says, and otherwise as fixed for its kind |
| Registry.AllNamesUniqueIff | bench/config.py:198-204 | names are unique over all families exactly if they are within the latency matrix |
| Registry.ShippedNamesUnique | bench/config.py:57-61 | which holds for the configured axes |
| Registry.IndexHoldsLast | bench/config.py:213 | the dictionary knows exactly the listed names, each with the last workload of that name |
| Registry.IndexAgreesWithScan | bench/config.py:213-216 | with unique names it answers what a scan from the front answers |
| Registry.WorkloadIndex.ByName | bench/config.py:207-216 | whether or not the cache is filled, the answer is that of the dictionary over all workloads, and a KeyError for any other name |
| Registry.WorkloadIndex.ByNames | bench/config.py:207-216 | over any series of lookups on one cache, each answer is that of a fresh scan of the list |
| Consumers.ConfluentConsumeUntil | bench/clients/confluent.py:122-131 | polls exactly while the deadline is not reached and the stop flag not seen; each polled message, and nothing for empty polls and errors, stands at its place among the deliveries, with its key and value or empty bytes and the reading after its own poll |
| Consumers.BatchConsumeUntil | bench/clients/kafka_python.py:77-88 | the same for batches: every record of every partition's list of every poll, list after list and poll after poll, and as many deliveries as records |
| Consumers.DeliverBatch | bench/clients/aiokafka_client.py:160-162 | a batch is delivered partition by partition, every record once and in order |
| Consumers.DeliveriesAreTheStream | bench/clients/base.py:48-55 | the callbacks see the concatenation of what was polled: nothing lost, repeated, invented or reordered |
| Consumers.ReceiveTimesOrdered | bench/clients/kafka_python.py:79-88 | receive times never decrease |
| Consumers.OnePollAfterStop | bench/clients/confluent.py:124-131 | only the last poll's records can be delivered after the stop flag is set |
| ConsumerRuns.LoopFollowed | bench/runner.py:138-156 | for any passes that a polling loop may make, from any state with the consumer at its check: a schedule of consumer steps makes the same passes with the same readings, leaves in the counters what the message handler makes of exactly those deliveries, and can leave where the loop does |
| ConsumerTraces.RunIsLoop | bench/runner.py:138-156 | conversely, in every run and however its threads interleave, the consumer's passes are those of a polling loop that checks before its deadline, their records are the log as far as it has come, and on a strict clock its counters are what the message handler makes of all deliveries dealt with, none missed |

## Left out

- Floating point: reals are exact; rounding in the report is an arbitrary function, so nothing depends on how it rounds.
- CSV, JSON, plots and the text layout of the report; the report's line about repeats, which the code writes only when there are rows, is the number 0 in the model when there are none.
- HdrHistogram: a histogram is the list of values recorded into it; percentiles, encoding and precision are not modelled.
- Lost updates: `+=` on a counter from several threads is taken as atomic. Giving a permit back and counting stay separate steps.
- Library and broker internals: a future completes once, registering with a future and its completion are atomic to each other, a broker shows only what a library accepted. Batching and retries inside a library are not modelled.
- An aiokafka coroutine that is cancelled before its first step never calls back; its submission stays owed. That happens only when the loop is closed after the run.
- Threads and event loops: start-up, join timeouts, cleanup, and the exceptions cleanup swallows.
- Protocol: on values, not on the classes of Runner and Metrics, because threads interleave within a method; the methods of those classes are tied to the same functions as the steps. Stamps are taken to fit 64 bits and sequence numbers 32 (Codec has the error otherwise), and clock readings to be positive.
- Protocol: the interval between sends is a whole number of clock ticks there, and a real in Pacer; the sleep is the time until the reading at which it is over. The consumer starts at the first clock reading of the run, and its check of deadline and stop flag is one step. The trailing wait is modelled for workloads with a consumer thread, as a wait for the counters or a time-out.
- Adapters: only the confluent producer has a field that a call changes, so only it is a class; the other two are their machines.
- Consumers.BatchConsumeUntil: the poll time-outs of kafka-python and aiokafka are not part of it, because what a poll returns, and when, is an input; aiokafka's future around its loop may also raise after a time-out.
- MakeMessage: the filler is any function of seed, sequence number and length that returns as many bytes as asked for.
- Sampler: what the operating system reports is an input; the truncation of the resident-size median to an integer is left out.
- Matrix and Registry: a workload's consumer settings, notes, target rate and time-outs, which are constants there; `workloads_for`, a filter.
- The modules for topics, environment capture, the command line, the bar chart and the CDF plot.
