# Verification of the telemetry exporter

A Dafny model of the parts of the Coralogix AWS Lambda telemetry exporter that keep state over a whole run, and proofs
about every run of them. `dafny verify dfyconfig.toml` checks the project.

The exporter is a Lambda extension. It receives *invoke events* and *telemetry events* on two independent channels,
*function spans* and *function metrics* from the instrumented function, and sends batches of logs, spans and metrics to
Coralogix before the environment is frozen. The model has five parts, each in a few modules.

**Event merging.** `EventMerge` gives the state machine that merges the channels: pop, hold, replay, divert to degraded
mode, open and close invocations. `TelemetryService` is the service itself, a class whose loop and handlers update
queues, buffers and flags in place; its `Valid` says that the state is that of the run over everything received, and
every handler is proved to take the state where the state machine does. The loop terminates although it pushes an event
back: starting normal processing happens once. `Confluence` proves that interleaving and batching do not matter,
`Attribution` that what happens to each event follows a declarative description of the arrival sequence,
`InvocationEvents` which stretch of the arrival sequence each invocation is given, `SpanRouting` that function spans
keep their order through three holding places, `SpanAttribution` which invocation is given which of the spans that
arrive, and `SpanTiming` before which of its events. `DoneFlag` and `InvocationDone` say when a handler answers that
the invocation is done.

**Send coordination.** `SendCoordination` is the protocol between the handler of an invoke event, which waits on a
signal channel, and everything that appends outputs: a flag, a deadline, detached timers, and a channel, as atomic
steps that interleave freely. `SendCoordinator` is the coordination state updated in place by these steps.

**Metrics.** `DataPoints` has the data points and the canonical identity of time series, `TimeSeries` the deduplication
and inflation of one series, `PointLaws` what both mean in terms of the fields of the points, `MetricsAccumulator` the
accumulator of all metrics, with a ghost history, and `Instruments` the separately written counter and summary of the
platform metrics.

**Invocations.** `SpanCapture` cleans and categorizes spans, fills the write-once slots and emits the trigger and
invocation spans; `SpanLaws` tells from the attributes and fields of a span what becomes of it. `InvocationProcessing`
says what each event or batch of spans does to an invocation and puts out; `TelemetryProcessor` has the classes that do
it in place, and `DegradedProcessing` the same for events that belong to no known invocation. `DelayedLogs`,
`StartLogs`, `ClosingLogs`, `Correlation` and `References` prove what that means for the logs and spans of a whole
invocation, and `InvocationRuns` and `SpanLosses` carry it over to whatever arrives at the service. `Ledgers` keeps
books over the merge; `ServiceLogs` follows the function logs of the whole service with them from arrival to output,
across invocations and degraded chunks, and `ServiceStarts` and `StartArrivals` the start logs.

**Two smaller cores.** `LogTimestamps` synthesizes the sub-millisecond part of log timestamps; `RetrySender` retries a
batch once, with overlapping calls.

`Telemetry` declares the data that flows through, `Sequences` a few facts about sequences.

The methods of the classes are proved against functions of their state; what the exporter promises is then proved about
those functions, for every input, run or interleaving.

## Findings

- `src/telemetry/telemetry_service.rs:211` says that a `ShouldSend` always precedes an `InvocationDone` in the
  strategies that send after an invocation. That holds for processing that succeeded
  (`SendCoordination.NoOutputLeftBehind`). A failed processing sends its `InvocationDone` alone, and the handler is sure
  to send everything before it receives that signal if and only if, when the processing begins, nothing waits and the
  processing adds nothing, or a send is due already and the handler is not waiting at an empty channel
  (`SendCoordination.FailureCaughtUpExactlyWhen`). `SendCoordination.FailureMayLeaveOutputBehind` is a run in which
  outputs are left behind.
- Function logs get lost without any failure in exactly one situation, in OTel mode: among the events that are replayed
  at the end of init a function log follows a report, no further report and no runtime-done event is among them, and no
  early invocation span is among the spans that arrive before the second invoke event and before normal processing
  starts (`ServiceLogs.FunctionLogsEndToEnd`). The report closes the invocation while the log waits. The shortest
  such input is an init start, an old report, a function log and the start of the invocation
  (`ServiceLogs.ReplayedReportStrands`).
- The shutdown flush completes the account of what arrived if and only if nothing arrived on one of the two channels, or
  the start of the first invocation arrived after an init start (`Attribution.FlushCompletes`). With one invoke event and
  one function log it falls short (`Attribution.FlushMayFallShort`).
- A batch waiting for its retry is lost to another one exactly when a call fails in a retryable way while it waits
  (`RetrySender.DisplacedExactlyWhen`). That takes overlapping calls (`RetrySender.OverlapMayDisplace`,
  `RetrySender.NothingDisplaced`).
- Log timestamps of logs that arrive in order are in order exactly when no time occurs more than 2^32 times
  (`LogTimestamps.TimestampsInOrder`, `LogTimestamps.TimestampsOutOfOrder`).
- Start logs get lost in OTel mode in exactly two situations (`StartArrivals.StartLogsEndToEnd`). Two start events go to
  one invocation before anything releases their logs, that is a runtime-done event or an early invocation span: the
  second start log replaces the first (`StartLogs.SecondStartReplacesFirst`). Or an invocation is ended by a report with
  a start event, but nothing that releases its log: a report puts out the function logs that wait, but not the start log
  (`StartLogs.ReportDropsStart`). An init start, an old report and the start of the invocation do the latter
  (`StartArrivals.ReplayedReportDropsStart`).
- An invocation that is ended without a runtime-done event never emits its trigger and invocation spans; it loses spans
  if and only if one of these arrived (`SpanLosses.EndedSpansLostExactlyWhen`, `SpanLosses.ReplayedReportLosesSpans`).
  With two runtime-done events they go out twice (`SpanLosses.SpansByDones`).
- The logs of an invocation need not refer to one span: when a report comes while init is going on, its log refers to
  init and the runtime-done log to the invocation (`References.ReportSplitsReference`).
  `References.LogsReferExactlyWhen` says exactly when they do.

## Model

| member | source | states |
|---|---|---|
| Confluence.QuiesceCommutesWithTelemetry | src/telemetry/telemetry_service.rs:524-661 | Running to quiescence, appending telemetry and running again ends where appending first and running once ends |
| Confluence.QuiesceCommutesWithInvoke | src/telemetry/telemetry_service.rs:524-661 | The same for appending an invoke event |
| Confluence.RunIsOneShot | src/telemetry/telemetry_service.rs:59-73 | Whatever the interleaving, the batching and the spans, a run ends where processing both whole sequences in one go ends, up to function spans |
| Confluence.Confluence | src/telemetry/telemetry_service.rs:59-66 | Two runs with the same invoke events and the same telemetry end in the same queues, buffers, flags and open invocation, having processed the same events on the same invocations or in the same degraded chunks |
| Confluence.ConfluenceWithoutSpans | src/telemetry/telemetry_service.rs:59-66 | Without function spans the two runs end in exactly the same state |
| Attribution.EventsConserved | src/telemetry/telemetry_service.rs:529-660 | In every run, processed events, then the half-processed buffer, then the queue are the arrival sequence; the buffer is empty once init is handled; at most one of the two is nonempty |
| Attribution.AttributionBeforeReplay | src/telemetry/telemetry_service.rs:582-615 | Until a start event of the first invocation follows an init start, whole chunks cut in front of each init start go out in degraded mode up to the last init start, and nothing before the first invocation |
| Attribution.AttributionAfterReplay | src/telemetry/telemetry_service.rs:582-658 | Events before the last init start are processed in degraded mode, chunk by chunk, and the others normally, each on the invocation whose number is the number of invocations that ended before it, exactly as far as there are invocations |
| Attribution.FlushCompletes | src/telemetry/telemetry_service.rs:304-318 | After the shutdown flush everything that arrived has been processed, in order, if and only if no invoke event or no telemetry arrived, or the start of the first invocation arrived after an init start |
| Attribution.FlushMayFallShort | src/telemetry/telemetry_service.rs:304-318 | One invoke event and one function log, and the flush leaves the log behind |
| Attribution.FlushIsFinal | src/telemetry/telemetry_service.rs:304-318 | The flush puts out exactly the queued events, in one degraded chunk, and nothing that arrives later is processed or opens an invocation |
| InvocationEvents.ClosedExactlyWhenReported | src/telemetry/telemetry_service.rs:653-657 | In every run, an opened invocation has been closed if and only if its processing state has a report |
| InvocationEvents.ReportedFlagAgrees | src/telemetry/telemetry_service.rs:653-657 | The flag by which the open invocation is closed is the one that processing has set |
| SpanRouting.SpanFifo | src/telemetry/telemetry_service.rs:330-366 | In every run, processed spans, then held spans, then the spans of queued invoke events are the arrival sequence; an open invocation that is not done leaves no spans held; no invocation is given spans after its runtime-done event |
| SpanAttribution.SpansGiven | src/telemetry/telemetry_service.rs:330-366 | In every run, the spans given to an invocation, or waiting for it before it is opened, are in order those that arrive while it is the latest invocation and not finished, or while the one before it is the latest and finished |
| SpanAttribution.DestinationIsOwner | src/telemetry/telemetry_service.rs:330-366 | Where the service puts spans is decided by what has arrived: the latest invocation, or the next one if an event that ends it or its runtime has arrived |
| SpanAttribution.ClosedExactlyWhenEnded | src/telemetry/telemetry_service.rs:653-657 | In every run an invocation has been opened and closed exactly when its invoke event has arrived and events that end it and all before it |
| SpanAttribution.FirstSpansGiven | src/telemetry/telemetry_service.rs:330-366 | When a report is among the replayed events, the first invocation is given exactly the spans that arrive before the second invoke event and before normal processing starts |
| SpanTiming.SpansGivenAhead | src/telemetry/telemetry_service.rs:330-366 | In every run, the spans that an invocation is given ahead of one of its events are those that arrive for it before that event, its invoke event and the start of normal processing have all arrived |
| TelemetryService.TelemetryService.HandleInvokeEvent | src/telemetry/telemetry_service.rs:169-190 | Takes the service to the run extended by the invoke event, and answers that the invocation is done if and only if the flush has not started and the invoke event makes a runtime-done event ready that is not among the replayed ones |
| TelemetryService.TelemetryService.HandleIncomingTelemetry | src/telemetry/telemetry_service.rs:413-414 | Takes the service to the run extended by the events, and answers in the same way |
| TelemetryService.TelemetryService.HandleOtlpSpans | src/telemetry/telemetry_service.rs:330-366 | Takes the service to the run extended by the spans |
| TelemetryService.TelemetryService.FlushEnqueuedTelemetry | src/telemetry/telemetry_service.rs:304-318 | Processes the event queue in degraded mode and stops further processing |
| TelemetryService.TelemetryService.HandleTelemetry | src/telemetry/telemetry_service.rs:435-452 | Processes unless the shutdown flush has started, and then answers that nothing is done |
| TelemetryService.TelemetryService.ProcessTelemetryEvents | src/telemetry/telemetry_service.rs:524-661 | The loop terminates in the quiescent state of the state machine, and answers whether, after the replay, it has handled a runtime-done event on an invocation |
| InvocationDone.DoneExactlyWhen | src/telemetry/telemetry_service.rs:642-645 | In every run, an input makes the service handle a runtime-done event outside the replay if and only if such an event goes to an invocation whose invoke event, whose predecessors' ends and which itself have now all arrived, and had not before |
| TelemetryService.TelemetryService.OpenInvocation | src/telemetry/telemetry_service.rs:538-570 | Opens the next invocation, giving it the held spans and then those that came with its invoke event |
| TelemetryService.TelemetryService.TakeBeforeInit | src/telemetry/telemetry_service.rs:582-600 | Before any init start: holds events, or diverts what was held |
| TelemetryService.TelemetryService.TakeDuringInit | src/telemetry/telemetry_service.rs:601-637 | After an init start: diverts, starts normal processing in front of the start event, or holds |
| TelemetryService.TelemetryService.ProcessBuffered | src/telemetry/telemetry_service.rs:620-629 | The held init events are processed in order on the open invocation |
| TelemetryService.TelemetryService.ProcessDegraded | src/telemetry/telemetry_service.rs:663-680 | All events are processed in one degraded state of their own |
| SendCoordination.NothingLostOrReordered | src/telemetry/telemetry_service.rs:683-693 | In every interleaving, batches and buffer are the outputs of all the steps, in order |
| SendCoordination.NothingSentWithoutReason | src/config/app_config.rs:90-106 | In every interleaving nothing is sent, requested or signalled until an invocation ends in a strategy other than low overhead, something arrives in a strategy other than reporting after invocations, there are too many spans, or at shutdown |
| SendCoordination.NothingSentEarly | src/telemetry/telemetry_service.rs:483-521 | In every interleaving a send becomes due only when an invocation ends, there are too many spans, or a deadline that was asked for has come, and apart from shutdown a batch goes out only when a send is due |
| SendCoordination.ShutdownSendsAll | src/telemetry/telemetry_service.rs:271-276 | Shutdown leaves nothing in the buffer: all outputs of all steps are in batches, in order |
| SendCoordination.LowOverheadNeverWaits | src/telemetry/telemetry_service.rs:159-199 | In the low-overhead strategy the handler never waits for a signal, and begins every invocation with an empty channel |
| SendCoordination.TooManySpansAreSent | src/telemetry/telemetry_service.rs:352-357 | When there are too many spans, a send is due and signalled until a batch goes out, in every strategy |
| SendCoordination.NothingHeldUp | src/telemetry/telemetry_service.rs:154-215 | In every interleaving nothing but an empty channel holds the handler up, each of its steps takes it on to the next, and a timer that is due can fire |
| SendCoordination.SignalsInOrder | src/telemetry/telemetry_service.rs:208-214 | When sending after invocations, signals are received in the order in which they were sent, whatever happens in between |
| SendCoordination.HandlerFinishes | src/telemetry/telemetry_service.rs:200-215 | Once the end of the invocation is signalled, the handler that waits comes to it by its own steps, one look at the buffer for each signal before, and leaves later signals alone |
| SendCoordination.CaughtUpExactlyWhen | src/telemetry/telemetry_service.rs:190-215 | When sending after invocations, and whatever else happens meanwhile, a handler about to receive an end-of-invocation signal has put everything appended when it was sent into a batch, if and only if nothing waited then, or a send was due and the handler was not waiting for just that signal |
| SendCoordination.NoOutputLeftBehind | src/telemetry/telemetry_service.rs:200-215 | That is so after every processing that succeeded |
| SendCoordination.FailureCaughtUpExactlyWhen | src/telemetry/telemetry_service.rs:419-433 | After a failed processing it is so if and only if, before it, nothing waited and nothing was added, or a send was due and the handler was not waiting at an empty channel |
| SendCoordination.EndIsReceived | src/telemetry/telemetry_service.rs:419-460 | And the signal so received is the end of the invocation, the last one that the processing sent |
| SendCoordination.NoWakeupLost | src/telemetry/telemetry_service.rs:512-521 | While the handler waits, a requested send has a `ShouldSend` in the channel |
| SendCoordination.NoDeadlineLost | src/telemetry/telemetry_service.rs:483-510 | In every interleaving the deadline is the earliest outstanding request and a timer is armed for exactly its time; once all due timers have fired, no outstanding request has passed |
| SendCoordination.NoRequestLost | src/telemetry/telemetry_service.rs:483-521 | In every interleaving, after any step that asks for a deadline: once it has passed and all due timers have fired, a batch has gone out since, or a send is due with a `ShouldSend` in the channel if the handler waits |
| SendCoordination.NoOutstandingRequestLost | src/telemetry/telemetry_service.rs:483-521 | The same for every request outstanding at any point of any interleaving |
| SendCoordination.NoSendForgotten | src/telemetry/telemetry_service.rs:512-521 | A send that is due stays due and signalled until a batch goes out |
| SendCoordination.FailureMayLeaveOutputBehind | src/telemetry/telemetry_service.rs:419-433 | After a failed processing the handler can receive `InvocationDone` with outputs in no batch |
| SendCoordinator.SendCoordinator.SignalShouldSendBy | src/telemetry/telemetry_service.rs:483-505 | Keeps the earliest deadline and arms a timer for it, or signals at once when it has passed |
| SendCoordinator.SendCoordinator.OnTimer | src/telemetry/telemetry_service.rs:494-502 | Signals exactly when the deadline, not the timer, has passed |
| SendCoordinator.SendCoordinator.SendTelemetry | src/telemetry/telemetry_service.rs:683-693 | Takes the whole buffer and clears flag and deadline |
| SendCoordinator.SendCoordinator.TrySend | src/telemetry/telemetry_service.rs:190-207 | The check between two waits of the handler |
| SendCoordinator.SendCoordinator.Receive | src/telemetry/telemetry_service.rs:208-214 | Consumes one signal, and finishes on `InvocationDone` |
| SendCoordinator.SendCoordinator.HandleTelemetry | src/telemetry/telemetry_service.rs:419-452 | Signals a send before the end of the invocation, and the end even after a failure |
| DataPoints.SeriesIdIsCanonical | src/telemetry/otel_metrics.rs:351-366 | Two attribute lists map to the same time series if and only if they are permutations of each other |
| TimeSeries.TakeAndInflateDataPoints | src/telemetry/otel_metrics.rs:269-317 | The loop puts out the inflation of the new points and carries over the last one, although it compares with the last point put out |
| TimeSeries.ExportScheduleIndependence | src/telemetry/otel_metrics.rs:234-246 | However exports are placed, empty ones included, everything exported plus what a final export would yield is the inflation of the deduplicated input in one go |
| TimeSeries.DenotationPreserved | src/telemetry/otel_metrics.rs:39-46 | With points in time order, at every time from the first point on the last point put out is equivalent to the last point put in, and before that absent or zero |
| TimeSeries.FirstPosition | src/telemetry/otel_metrics.rs:282-296 | The first point opens the output if it is zero, and otherwise follows a zero at most 30 s earlier |
| TimeSeries.NextPosition | src/telemetry/otel_metrics.rs:298-314 | Between two retained points there is one injected point if they are more than 35 s apart and none otherwise: a copy of the first, more than 5 s after it and exactly 30 s before the second |
| TimeSeries.RateContinuity | src/telemetry/otel_metrics.rs:36-46 | However exports are placed, every retained point but an initial zero is put out with a predecessor at most 35 s earlier, outputs are in time order, and there are at most twice as many as retained points |
| PointLaws.EquivalentExactly | src/telemetry/otel_metrics.rs:421-521 | Two points are equivalent if and only if they are of one kind and agree in flags and in each measured field: the number; count, sum, minimum, maximum, bucket counts and bounds; count, sum and quantiles |
| PointLaws.RetainedAt | src/telemetry/otel_metrics.rs:234-246 | Deduplication keeps exactly the points that differ in one of these fields from the point right before them, in order |
| PointLaws.NewValueShows | src/telemetry/otel_metrics.rs:234-317 | However exports are placed, from the time of an input point until that of the next one the series put out has all its values |
| PointLaws.ChangeIsExported | src/telemetry/otel_metrics.rs:234-317 | However times and exports are ordered, a point that differs from the one before it is put out as it is |
| PointLaws.FirstIsExported | src/telemetry/otel_metrics.rs:282-296 | The output opens with the first point if all its values are zero, and otherwise with a copy of it in which all values that are there are zero, 30 s earlier, and then the point |
| PointLaws.GapIsBridged | src/telemetry/otel_metrics.rs:298-314 | After a value that stays for more than 35 s, the output has one copy of it that differs in the time alone, 30 s before the next value |
| MetricsAccumulator.AccumulatePoints | src/telemetry/otel_metrics.rs:224-246 | Each series accumulates exactly the points with its identity, in order |
| MetricsAccumulator.TakePoints | src/telemetry/otel_metrics.rs:248-266 | The points taken are those owed by each series, each series in order, and all series are as after an export |
| MetricsAccumulator.ReceivedFaithful | src/telemetry/otel_metrics.rs:64-136 | Receiving a metric keeps every series as the single-series algorithm leaves it on its part of the history |
| MetricsAccumulator.SentFaithful | src/telemetry/otel_metrics.rs:138-151 | So does an export |
| MetricsAccumulator.SeriesIsolation | src/telemetry/otel_metrics.rs:60-151 | What is exported and owed for one series of a cumulative sum or histogram or of a summary is the one-shot result of its own points, whatever else is accumulated |
| MetricsAccumulator.SeriesPassThrough | src/telemetry/otel_metrics.rs:153-183 | Each series of a gauge or of a sum or histogram that is not cumulative comes out unchanged, once, in order |
| MetricsAccumulator.SeriesShowsValue | src/telemetry/otel_metrics.rs:60-151 | For a series of a cumulative sum or histogram or of a summary, the values of a received point are in force in what was exported and is owed, from its time until that of the next point received |
| MetricsAccumulator.OtelMetricsAccumulator.AccumulateMetric | src/telemetry/otel_metrics.rs:64-136 | Keeps all series faithful to the history and all metrics labelled by the first one received with their key, and counts the dropped exponential histogram points |
| MetricsAccumulator.OtelMetricsAccumulator.Accumulate | src/telemetry/otel_metrics.rs:60-62 | Receives all the metrics in order |
| MetricsAccumulator.OtelMetricsAccumulator.Export | src/telemetry/otel_metrics.rs:138-203 | Exports one metric for each key received, with the name, description, unit, temporality and monotonicity of the first metric received with that key, and keeps all series faithful |
| Instruments.CounterAgreesWithAccumulator | src/telemetry/processor/platform_metrics/instruments.rs:47-92 | A counter emits what the accumulator makes of its running totals, seeded with a zero at time zero |
| Instruments.SummaryAgreesWithAccumulator | src/telemetry/processor/platform_metrics/instruments.rs:117-162 | So does a summary, although it compares only the counts |
| Instruments.Counter.Report | src/telemetry/processor/platform_metrics/instruments.rs:51-92 | Reports the gap point and the total, or nothing; the subtraction does not underflow |
| Instruments.Summary.Report | src/telemetry/processor/platform_metrics/instruments.rs:122-162 | The same for sum and count |
| SpanCapture.ScannedStrings | src/telemetry/processor/span_processor.rs:423-442 | The role and the given ids are those of the last such attributes |
| SpanCapture.ScannedFlags | src/telemetry/processor/span_processor.rs:427-438 | One "early" state suffices, and one trigger attribute |
| SpanCapture.CleanedAttributes | src/telemetry/processor/span_processor.rs:504-509 | Exactly the attributes that are neither internal nor excluded are kept, in order, and the exclusions do not disturb the categories |
| SpanCapture.ProcessAndCategorize | src/telemetry/processor/span_processor.rs:415-481 | Cleans a span and finds its category, in one pass over its attributes each |
| SpanLaws.CategoryExactly | src/telemetry/processor/span_processor.rs:445-480 | One if-and-only-if per category: the last role attribute and the presence of an "early" state attribute decide, and without a role a server or consumer kind and the absence of a trigger attribute |
| SpanLaws.DecodesExactly | src/telemetry/processor/span_processor.rs:449-459 | A text decodes to some bytes if and only if it is a hexadecimal rendering of them, in either case |
| SpanLaws.CleanIds | src/telemetry/processor/span_processor.rs:446-459 | The ids of a cleaned span are its own, unless it is early and has a role and the last attribute that gives the id decodes |
| SpanLaws.CleanExactly | src/telemetry/processor/span_processor.rs:422-443 | Cleaning keeps exactly the attributes that are neither internal nor excluded, in order, and changes nothing else but the ids |
| SpanCapture.InvocationTracingState.ProcessFunctionSpans | src/telemetry/processor/span_processor.rs:344-352 | Captures the spans of a batch one by one, whatever resources and scopes they are in, and passes on the rest in order, with no empty scope |
| SpanCapture.InvocationTracingState.DetectLanguage | src/telemetry/processor/span_processor.rs:354-362 | Keeps a language, or takes that of the first resource with one |
| SpanLaws.LanguageExactly | src/telemetry/processor/span_processor.rs:354-362 | The language of some resources is the value of the first language attribute of the first resource that names one |
| SpanLaws.LanguageOfRun | src/telemetry/processor/span_processor.rs:354-362 | Over a whole invocation, however its spans are batched, the language is that of all its resources |
| SpanCapture.InvocationTracingState.ProcessSpans | src/telemetry/processor/span_processor.rs:364-413 | The loop over resources, which keep their attributes |
| SpanLaws.ScopesExactly | src/telemetry/processor/span_processor.rs:369-378 | The spans that are dealt with are exactly those in some scope of some resource, each together with its scope |
| SpanCapture.InvocationTracingState.TryCapture | src/telemetry/processor/span_processor.rs:511-525 | Fills a slot exactly when it is free |
| SpanCapture.InvocationTracingState.EmitTriggerAndInvocationSpans | src/telemetry/processor/span_processor.rs:534-585 | Emits the trigger span, the invocation span and a generic one left over, in this order, each in a scope of its own |
| SpanCapture.SlotHoldsFirst | src/telemetry/processor/span_processor.rs:511-525 | Slots are write-once: after any spans each holds the first of its category |
| SpanCapture.ForwardsTheRest | src/telemetry/processor/span_processor.rs:400-411 | Ordinary spans and duplicates are passed on in order, all others are not |
| SpanCapture.CapturingAccounts | src/telemetry/processor/span_processor.rs:381-409 | Each span is in a slot, has been passed on, or was a warmup span, exactly once |
| SpanCapture.EmissionAccounts | src/telemetry/processor/span_processor.rs:550-584 | Each captured span is emitted exactly once, except early spans whose final version was captured |
| SpanCapture.InvocationSpanGoesOut | src/telemetry/processor/span_processor.rs:558-604 | The emitted invocation span has the ids that logs refer to and the language; an early one has the end and status of the runtime |
| SpanLaws.TriggerExactly | src/telemetry/processor/span_processor.rs:550-556 | A final trigger span goes out as it is, an early one with the end and the status of the runtime |
| SpanLaws.InvocationExactly | src/telemetry/processor/span_processor.rs:558-649 | The final invocation span goes out with the language added, else the early one with the end and the status of the runtime as well, else the generic one with the language; nothing else about them changes |
| SpanLaws.LeftOverExactly | src/telemetry/processor/span_processor.rs:573-582 | A generic invocation span besides one of the others goes out as it is |
| InvocationProcessing.LogsShareAClock | src/telemetry/processor/log_processor.rs:299-320 | The timestamps of all the logs of an invocation are those synthesized for their times in the order in which they go out |
| TelemetryProcessor.OutputBuffers.AddFunctionResourceSpans | src/telemetry/telemetry_service.rs:99-103 | Appends all spans, and the count stays the number of buffered spans |
| TelemetryProcessor.OutputBuffers.AddFunctionScopeSpans | src/telemetry/telemetry_service.rs:105-110 | The same for scopes |
| TelemetryProcessor.OutputBuffers.TakeFunctionSpans | src/telemetry/telemetry_service.rs:112-115 | Takes all spans and resets the count |
| TelemetryProcessor.InvocationProcessingState.constructor | src/telemetry/mod.rs:76-101 | Logs are delayed from the start in OTel mode only; spans are produced by sampling |
| TelemetryProcessor.InvocationProcessingState.ProcessDelayedLogs | src/telemetry/processor/telemetry_processor.rs:280-299 | Puts out the start log and then all waiting function logs, stamped in order |
| TelemetryProcessor.InvocationProcessingState.ProcessTelemetry | src/telemetry/processor/telemetry_processor.rs:34-164 | Has exactly the effect of the event on the delay and the captured spans of the invocation and on the buffers of logs, function spans and Epsagon traces |
| TelemetryProcessor.InvocationProcessingState.ProcessRuntimeDone | src/telemetry/processor/telemetry_processor.rs:86-126 | Ends the delay, logs, and emits the special function spans, in this order |
| TelemetryProcessor.InvocationProcessingState.ProcessReport | src/telemetry/processor/telemetry_processor.rs:127-149 | Puts out late function logs before the report log, stamped in order, and records the report |
| TelemetryProcessor.InvocationProcessingState.ProcessFunctionSpans | src/telemetry/processor/telemetry_processor.rs:253-278 | Captures, passes on, and ends the delay when an early invocation span is there |
| DelayedLogs.FunctionLogsConserved | src/telemetry/processor/telemetry_processor.rs:45-60 | Emitted function logs, then the waiting ones, are the regular function logs that arrived, in order; none waits when logs are not delayed or right after a report |
| DelayedLogs.SilentWhenOff | src/telemetry/processor/telemetry_processor.rs:46-46 | Without structured logs there are no logs and no Epsagon traces |
| DelayedLogs.TracesGoOut | src/telemetry/processor/telemetry_processor.rs:45-60 | The Epsagon traces that went out are exactly those that the arriving function logs carry, in order, and each function log went out as a trace, went out as a log, or waits |
| StartLogs.StartLogsAccountedFor | src/telemetry/processor/telemetry_processor.rs:78-85 | Start logs emitted or pending are those of the start events that arrived, in order, except that of those that arrive before anything releases delayed logs only the last counts |
| StartLogs.NoStartLogMissingExactlyWhen | src/telemetry/processor/telemetry_processor.rs:78-85 | Every start log went out or waits if and only if at most one start event arrived before anything releases delayed logs; one that waits when the invocation is closed is lost, see the next row |
| StartLogs.StartLogsOutExactlyWhen | src/telemetry/processor/telemetry_processor.rs:78-149 | All start logs of an invocation have gone out if and only if no start event arrived unless something that releases its log did, and at most one arrived before that; a report releases none |
| StartLogs.ReportDropsStart | src/telemetry/processor/telemetry_processor.rs:127-149 | A start event and a report, and the start log never goes out |
| StartLogs.SecondStartReplacesFirst | src/telemetry/processor/telemetry_processor.rs:78-85 | Two start events at the beginning of an invocation get only the second start log |
| DelayedLogs.OneStartLog | src/telemetry/processor/telemetry_processor.rs:285-290 | A single start event gets exactly one start log once the runtime is done |
| DelayedLogs.NoStartLogs | src/telemetry/processor/telemetry_processor.rs:80-80 | And none when start logs are switched off |
| ClosingLogs.ClosingLogsPerEvent | src/telemetry/processor/telemetry_processor.rs:96-139 | There is one runtime-done log per runtime-done event and one report log per report, in order, as far as they are switched on; a runtime-done log carries a message if and only if the status of the invocation span among the spans that arrived by then (the first final, else early, else generic one) is an error, and then its message |
| DelayedLogs.FirstLogs | src/telemetry/processor/telemetry_processor.rs:89-106 | The step that ends the delay puts out the start log, all function logs so far in order, and the runtime-done log, and these are the first logs of the invocation |
| Correlation.DelayedExactlyWhen | src/telemetry/processor/telemetry_processor.rs:268-276 | Logs are delayed exactly in OTel mode until the runtime is done or an early invocation span has arrived |
| Correlation.SlotOfRun | src/telemetry/processor/span_processor.rs:381-399 | Over a whole invocation, however its spans are batched, each slot holds the first span of its category |
| Correlation.OneReferencePerInvocation | src/telemetry/mod.rs:103-128 | Without an early invocation span, all logs of an invocation refer to one span if no spans come after the runtime-done event and no init event reopens init |
| References.ReferenceOfRun | src/telemetry/mod.rs:103-128 | After any steps, the reference is the latest init span while init is going on, and otherwise the first final, early or generic invocation span that arrived, or what the invoke event gives |
| References.LogsReferExactlyWhen | src/telemetry/mod.rs:103-128 | All logs of an invocation refer to a given span if and only if, at every step that puts out logs, that is the reference of what has arrived; which steps put out logs is told from what has arrived as well |
| References.ReportSplitsReference | src/telemetry/processor/telemetry_processor.rs:127-149 | A report while init is going on refers to init, and the runtime-done log to the invocation |
| Correlation.ReferenceIsTheInvocationSpan | src/telemetry/mod.rs:109-119 | Unless init is going on, that is the emitted invocation span, if one was captured |
| Correlation.FailureIsLogged | src/telemetry/processor/telemetry_processor.rs:96-104 | The runtime-done log tells the message of the very invocation span that goes out if and only if its status is an error, unless only its early version is known |
| Correlation.EarlyReferencePerInvocation | src/telemetry/processor/telemetry_processor.rs:268-277 | With an early invocation span that arrives after init, all logs refer to it, if the final span has the same ids |
| Correlation.SpansAccountedFor | src/telemetry/processor/telemetry_processor.rs:259-266 | Every function span that arrived before the runtime-done event goes out exactly once, except warmup and superseded early spans |
| Correlation.NoSpansAtAll | src/telemetry/processor/telemetry_processor.rs:262-266 | None goes out in the other modes or when the invocation is not sampled |
| InvocationRuns.NoSpansAfterRuntimeDone | src/telemetry/telemetry_service.rs:336-366 | Whatever arrives at the service, no invocation is given spans after its runtime-done event |
| InvocationRuns.RoutingFlagAgrees | src/telemetry/telemetry_service.rs:333-341 | The flag by which spans are routed is the one that processing has set |
| InvocationRuns.InvocationSpansAccountedFor | src/telemetry/telemetry_service.rs:524-661 | Whatever arrives at the service and however it is interleaved, the spans given to an invocation with one runtime-done event go out exactly once, except warmup and superseded early spans |
| SpanLosses.SpansByDones | src/telemetry/processor/telemetry_processor.rs:115-125 | Captured spans go out as often as the runtime of the invocation is done, except superseded ones, all others but warmup spans once |
| SpanLosses.InvocationSpansExactlyWhen | src/telemetry/telemetry_service.rs:524-661 | In every run all function spans of an invocation go out exactly once, except warmup and superseded ones, if and only if exactly one runtime-done event goes to it or no trigger or invocation span arrives for it |
| SpanLosses.EndedSpansLostExactlyWhen | src/telemetry/telemetry_service.rs:653-657 | An invocation that has ended has lost spans if and only if a trigger or invocation span arrived for it and no runtime-done event went to it |
| SpanLosses.ReplayedReportLosesSpans | src/telemetry/telemetry_service.rs:613-657 | An old report that is replayed loses the trigger and invocation spans of the first invocation |
| InvocationRuns.InvocationLogsCorrelated | src/telemetry/telemetry_service.rs:524-661 | And its logs refer to one span, when no early span or report comes before the runtime-done event and no init event after it |
| InvocationRuns.InvocationLogsReferToItsSpan | src/telemetry/telemetry_service.rs:524-661 | When an invocation span arrived as well, spans are produced and init is over, that reference is the invocation span that goes out |
| InvocationRuns.InvocationLogsReferToEarlySpan | src/telemetry/telemetry_service.rs:524-661 | With an early invocation span that arrives after init and whose final version, if any, has the same ids, all logs of the invocation refer to the ids of the captured invocation span |
| DegradedProcessing.DegradedProcessingState.ProcessTelemetry | src/telemetry/processor/telemetry_processor.rs:169-233 | Logs at once whatever is to be logged, with the next timestamps |
| DegradedProcessing.ProcessChunk | src/telemetry/telemetry_service.rs:663-680 | All logs of a chunk go out in order under one reference, with a clock of their own |
| DegradedProcessing.ChunkLogsConserved | src/telemetry/processor/telemetry_processor.rs:178-205 | No function log and no start log of a chunk is lost, duplicated or reordered |
| DegradedProcessing.ChunkClosings | src/telemetry/processor/telemetry_processor.rs:206-222 | Nor are its runtime-done and report logs; they tell no message |
| DelayedLogs.HeldExactly | src/telemetry/processor/telemetry_processor.rs:45-60 | An invocation holds back exactly the function logs since its last report, while logs are delayed |
| ServiceLogs.FunctionLogsEndToEnd | src/telemetry/telemetry_service.rs:524-661 | Whatever arrives at the service and however it is interleaved, the function logs that went out, then those that wait with the open invocation, in the half-processed buffer and in the queue, are those that arrived, once and in order, unless in OTel mode the replayed events contain a report with a function log after it and no later report, no runtime-done event, and no early invocation span arrived before the second invoke event and normal processing: then and only then is something missing |
| ServiceLogs.ReplayedReportStrands | src/telemetry/telemetry_service.rs:613-657 | A report among the replayed events can lose a function log |
| ServiceStarts.AllStartsUnlessLost | src/telemetry/processor/telemetry_processor.rs:78-85 | In every run, the start logs that went out, then the one that waits with the open invocation, then those of the events in the half-processed buffer and in the queue are those of the start events that arrived, once and in order, if and only if no invocation replaced one and none was closed with one waiting |
| StartArrivals.StartLogsEndToEnd | src/telemetry/telemetry_service.rs:524-661 | That is so if and only if, in terms of what arrived, no two start events of an invocation are delayed, and no invocation is ended with a start event but no runtime-done event and no early invocation span |
| StartArrivals.EndedStartLogsOutExactlyWhen | src/telemetry/telemetry_service.rs:653-657 | The start logs of an invocation that has ended have all gone out, once and in order, if and only if neither happens to this invocation |
| StartArrivals.ReplayedReportDropsStart | src/telemetry/telemetry_service.rs:613-657 | An init start, an old report and the start of the invocation lose the start log |
| LogTimestamps.LastLogState.MakeTimestamp | src/telemetry/processor/log_processor.rs:299-320 | The next timestamp and clock, with 64-bit clamping and 32-bit wrap-around |
| LogTimestamps.TimestampOf | src/telemetry/processor/log_processor.rs:296-320 | A timestamp is the time plus the number of logs right before with the same time, up to 999,999 and modulo 2^32, within its own millisecond |
| LogTimestamps.TimestampOfAny | src/telemetry/processor/log_processor.rs:299-320 | The same for all times but zero: times out of range are clamped to 64 bits, and the sum wraps around |
| LogTimestamps.TimestampsInOrder | src/telemetry/processor/log_processor.rs:296-298 | Logs in time order get timestamps in order if and only if no time occurs more than 2^32 times, strictly increasing for the first million of a time |
| LogTimestamps.TimestampsOutOfOrder | src/telemetry/processor/log_processor.rs:310-310 | 2^32 + 1 logs of the same time get timestamps out of order |
| RetrySender.AtMostOneRetry | src/coralogix/coralogix_sender.rs:72-106 | However calls overlap, no batch is attempted more than twice, and the slot holds a batch attempted exactly once |
| RetrySender.EveryBatchAccountedFor | src/coralogix/coralogix_sender.rs:124-145 | Without overlap, each batch was empty, delivered, refused after one attempt, failed twice, or is the latest one, waiting |
| RetrySender.NothingDisplaced | src/coralogix/coralogix_sender.rs:84-105 | Without overlap, no batch loses its place in the slot |
| RetrySender.DisplacedExactlyWhen | src/coralogix/coralogix_sender.rs:92-99 | A batch is displaced exactly when a call with items fails with `Unavailable` or `UnexpectedResponse` while the batch is in the slot |
| RetrySender.OutcomeDecides | src/coralogix/coralogix_sender.rs:84-106 | However calls overlap, the batch of a call that finishes was empty, delivered, refused, or waits in the slot, exactly as its outcome says, the last after `Unavailable` and `UnexpectedResponse` only; its retry was delivered or has failed for good; and the next call takes along what is in the slot |
| RetrySender.OverlapMayDisplace | src/coralogix/coralogix_sender.rs:73-80 | Two overlapping calls can do that |
| RetrySender.OtlpPillarTelemetrySender.BeginCall | src/coralogix/coralogix_sender.rs:73-80 | Takes what is to be retried along |
| RetrySender.OtlpPillarTelemetrySender.FinishCall | src/coralogix/coralogix_sender.rs:84-105 | Leaves the call's own batch behind exactly after a retryable failure |

## Left out

Assumptions of the model:

- Processing does not fail in `EventMerge` and `InvocationProcessing`; an early exit loses events by design. `SendCoordination` does model failures.
- Invoked ARNs parse, and the trace context of an invoke event is given.
- Random ids are parameters, indexed by position in the run.
- Times of data points are below 2^64 ns by more than 35 s, so that the addition in the gap test does not overflow.
- Measured values are reals, without NaN or rounding; counts and sums of the instruments do not wrap around.
- The start timestamp of an instrument does not change between reports.
- Integer overflow of the log clock wraps around, as in a release build.
- Function logs have times after the epoch: a first log exactly at the epoch would get subindex 1.
- A signal that is sent arrives; there is one handler of invoke events at a time.

Not modelled:

- MetricsAccumulator.SeriesIsolation: covers keys under which all metrics are cumulative or summaries (`MetricsAccumulator.SeriesPassThrough` those under which none is), because accumulation looks at the temporality of the incoming metric and export at that of the first one.
- Correlation.EarlyReferencePerInvocation: a sufficient condition (`References.LogsReferExactlyWhen` is the exact one); an early span that arrives while init is going on releases logs that refer to the init span.
- InvocationRuns.InvocationLogsCorrelated: a sufficient condition (`References.LogsReferExactlyWhen` is the exact one, for the steps given to any invocation); covers invocations without an early invocation span; `InvocationRuns.InvocationLogsReferToEarlySpan` covers those whose early span arrives after init.
- TelemetryProcessor.InvocationProcessingState.ProcessTelemetry: spans made from platform events and updates of the metric state in these lines are not modelled.
- TelemetryProcessor.InvocationProcessingState.ProcessRuntimeDone: spans made from platform events and updates of the metric state in these lines are not modelled.
- TelemetryProcessor.InvocationProcessingState.ProcessReport: the spans made after the report and updates of the metric state in these lines are not modelled.
- DegradedProcessing.DegradedProcessingState.ProcessTelemetry: the init spans of degraded mode and updates of the metric state in these lines are not modelled.
- Order of exported metrics and series: the program iterates over hash maps, and the model leaves the order open. The four maps of accumulators are one map keyed by kind and name.
- JSON bodies, log metadata, severities, tags, regular expressions, Epsagon decoding and the text form of attribute values: opaque values or predicates of the configuration.
- Spans made from platform events (`spans_buffer`) and the metric catalogues: they read the modelled state but do not change its course.
- The invocation state inside `TelemetryService` is reduced to the flags that the service reads; `InvocationRuns.RoutingFlagAgrees` and `InvocationEvents.ReportedFlagAgrees` tie them to the full state.
- `MaxGauge`: a maximum and a flag.
- `CombinedTelemetrySender` and `FirehoseTelemetrySender` use the protocol of `RetrySender`.
- Clients, compression, TLS, configuration, ARN and X-Ray parsing, resource attributes, `SendingSupervisor`, the wall-clock timeouts of a send and of shutdown.
- What happens to events in the half-processed buffer and to delayed logs at shutdown: the program does not flush them.
