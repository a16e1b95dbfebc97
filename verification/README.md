# CsaEventProcessor: the event accumulator, as a verified Dafny model

CsaEventProcessor reads a log of JSON lines. Each line is one lifecycle
event: an id, a state (`STARTED` or `FINISHED`), a timestamp, and an
optional type and host. For every distinct id it produces one `OutputEvent`
with these fields:

- the duration between the STARTED and FINISHED instants;
- the first type and host it saw;
- an alert flag, set when the duration exceeds `ALERT_THRESHOLD` (default 4).

This project models the aggregation core:

- `InputEvent` (`input_event.dfy`): the immutable five-field record.
- `OutputEvent` (`output_event.dfy`): the mutable accumulator. It is a class with the seven Java fields. Its `accept` and `combiner` methods change those fields in place.
- `Summaries` (`summary.dfy`): the same update steps as functions on a `Summary` value. Each class method is proved to change `State()` exactly as its function says.
- `Accumulation` (`accumulation.dfy`): runs of `accept` over a sequence of events, plus reference definitions of what a run keeps:
  - the minimum STARTED instant;
  - the maximum FINISHED instant, guaranteed when the run opens with a STARTED event that carries a timestamp (in general, the first FINISHED instant before the first timed STARTED event, then the latest of it and every later one);
  - the first non-null type and host.
- `Properties` (`properties.dfy`):
  - what the accumulator and combiner guarantee;
  - where the order of events matters;
  - the test vectors of `OutputEventTest`.
- `Processor` (`processor.dfy`):
  - `getInputEventStream`, which maps each line to an event with a decoder.
  - `getOutputEventsStream`, which groups events by id and feeds each group to its own accumulator. It is modelled as a loop over the events. It fills a map from id to fresh `OutputEvent` objects, and is proved against a value-level specification `GroupSpec`.
  - The six-event scenario of the processor tests.

Modelling choices:

- Java `null` is `Option.None`.
- `BigDecimal` timestamps and durations are `real`, which is exact, like `BigDecimal`.
- An `IllegalArgumentException` is a `Result.Failure` carrying the Java message.
- The static `ALERT_THRESHOLD` is an `int` parameter of every update.

Where the code behaves in ways that are easy to misread, the model follows the code:

1. `acceptFinishedTimestamp` compares a new FINISHED instant only once a STARTED instant is known. Before that, the first FINISHED instant sticks (`FinishOfAnyRun`). So the FINISHED instant is guaranteed to be the latest one when the run opens with a STARTED event that carries a timestamp (`RunFromStart`). Accepting events is not order-independent (`FinishedBeforeStartSticks`).
2. The combiner is neither commutative nor partition-invariant in general:
   - type and host come from the first argument;
   - the FINISHED rule above applies (`PartitioningChangesResult`, `CombineNotAssociative`, `CombineNotCommutative`).

   The combiner does agree with sequential accumulation when every part opens with a timed STARTED event (`PartitionAgreesWhenEachPartStarts`).
3. `acceptId` throws when an id is already kept and the other id is null. The combiner therefore throws for a partial that has an id and an empty one (`CombinerIdConflicts`).
4. An empty string is a set value for type and host (`EmptyStringCountsAsSet`).
5. A new `OutputEvent` has a null alert. The alert becomes non-null only at the first timestamp update (`EmptyIsDerived`, `SingleMarkerRuns`).

## Model

| member | source | states |
|---|---|---|
| InputEvents.GettersReturnConstructorArguments | src/main/java/com/test/event/InputEvent.java:14-46 | every getter returns the constructor's argument unchanged, nulls included, and an event rebuilt from its getters is equal to it |
| InputEvents.MarkersDiffer | src/main/java/com/test/event/OutputEvent.java:104-110 | STARTED and FINISHED are different strings, so at most one of the two timestamp branches of `accept` runs |
| Summaries.AcceptId | src/main/java/com/test/event/OutputEvent.java:36-42 | fails exactly when an id is kept and the argument differs from it (null included), with the Java message; otherwise the first id is kept |
| Summaries.UpdateDurationAndAlert | src/main/java/com/test/event/OutputEvent.java:68-80 | the duration is finish minus start when both are known (else null), the alert is the strict threshold test on it (false when null), and nothing else changes |
| Summaries.AcceptStarted | src/main/java/com/test/event/OutputEvent.java:44-54 | the STARTED instant becomes the earlier of the kept one and the argument; the other kept fields are unchanged; duration and alert are consistent with the timestamps |
| Summaries.AcceptFinished | src/main/java/com/test/event/OutputEvent.java:56-66 | the FINISHED instant becomes the later of kept and argument once a STARTED instant is known, and the first non-null one otherwise; duration and alert stay consistent |
| Summaries.Accept | src/main/java/com/test/event/OutputEvent.java:100-118 | fails exactly on an id conflict; on success gives the new id, STARTED and FINISHED instants, and first-wins type and host; other states leave duration and alert untouched; preserves the duration/alert invariant |
| Summaries.Combine | src/main/java/com/test/event/OutputEvent.java:128-138 | fails exactly when a has an id that b's id (null included) differs from; otherwise applies b's id, STARTED, FINISHED, host and type to a with the same rules, the FINISHED guard reading a's updated STARTED instant |
| OutputEvents.OutputEvent.constructor | src/main/java/com/test/event/OutputEvent.java:25-34 | every field of a new accumulator is null |
| OutputEvents.OutputEvent.AcceptId | src/main/java/com/test/event/OutputEvent.java:36-42 | throws exactly on an id conflict, leaving every field unchanged; otherwise the fields become `Summaries.AcceptId` of the old ones |
| OutputEvents.OutputEvent.UpdateDurationAndAlert | src/main/java/com/test/event/OutputEvent.java:68-80 | the fields become `Summaries.UpdateDurationAndAlert` of the old ones |
| OutputEvents.OutputEvent.AcceptStartedTimestamp | src/main/java/com/test/event/OutputEvent.java:44-54 | the fields become `Summaries.AcceptStarted` of the old ones |
| OutputEvents.OutputEvent.AcceptFinishedTimestamp | src/main/java/com/test/event/OutputEvent.java:56-66 | the fields become `Summaries.AcceptFinished` of the old ones |
| OutputEvents.OutputEvent.AcceptHost | src/main/java/com/test/event/OutputEvent.java:82-86 | the host is set only if it was null; nothing else changes |
| OutputEvents.OutputEvent.AcceptType | src/main/java/com/test/event/OutputEvent.java:88-92 | the type is set only if it was null; nothing else changes |
| OutputEvents.OutputEvent.Accept | src/main/java/com/test/event/OutputEvent.java:100-118 | returns the receiver itself with its fields updated as `Summaries.Accept`, or throws its error with every field unchanged |
| OutputEvents.OutputEvent.Combiner | src/main/java/com/test/event/OutputEvent.java:128-138 | mutates and returns the first accumulator as `Summaries.Combine` of the two old states, or throws with it unchanged; the second accumulator is not changed unless it is the same object |
| Accumulation.SameIdNeverFails | src/main/java/com/test/event/OutputEvent.java:36-42 | events that all carry the accumulator's own id (or any one id, from a fresh accumulator) never throw, and leave that id kept |
| Accumulation.AcceptAllFields | src/main/java/com/test/event/OutputEvent.java:100-118 | a successful run keeps the earliest STARTED instant, the first non-null type and host, and preserves the duration/alert invariant |
| Accumulation.LatestFinishOnceStarted | src/main/java/com/test/event/OutputEvent.java:56-66 | once a STARTED instant is known, a run keeps the latest FINISHED instant |
| Accumulation.FirstFinishBeforeStart | src/main/java/com/test/event/OutputEvent.java:56-66 | while no timed STARTED event has been accepted, no STARTED instant is kept and the first FINISHED instant sticks |
| Accumulation.FirstStartAfter | src/main/java/com/test/event/OutputEvent.java:44-66 | after events with no timed STARTED event, a timed STARTED event sets the STARTED instant and keeps the first FINISHED instant seen so far |
| Accumulation.FinishOfAnyRun | src/main/java/com/test/event/OutputEvent.java:56-66 | for any successful run from a new accumulator, the FINISHED instant is the first one before the first timed STARTED event, then the latest of it and every FINISHED instant after that event |
| Accumulation.AcceptAllConcat | src/main/java/com/test/CsaEventProcessor.java:94-102 | accepting `xs + ys` is accepting `xs` and then `ys` from the resulting state, with a failure in `xs` propagated |
| Accumulation.EarliestStartIsMinimum | src/main/java/com/test/event/OutputEvent.java:44-54 | the STARTED reference fold is null exactly when no timed STARTED event occurs, is one of their instants, and is at most each of them |
| Accumulation.LatestFinishIsMaximum | src/main/java/com/test/event/OutputEvent.java:56-66 | the FINISHED reference fold is null exactly when no timed FINISHED event occurs, is one of their instants, and is at least each of them |
| Accumulation.FirstTypeIsFirstNonNull | src/main/java/com/test/event/OutputEvent.java:88-92 | the type fold is null exactly when every type is null, and otherwise is the type of an event preceded only by null types |
| Accumulation.FirstHostIsFirstNonNull | src/main/java/com/test/event/OutputEvent.java:82-86 | the host fold is null exactly when every host is null, and otherwise is the host of an event preceded only by null hosts |
| Accumulation.FoldsSplit | src/main/java/com/test/event/OutputEvent.java:128-138 | each reference fold over `xs + ys` is the fold over `xs` merged with the fold over `ys`: STARTED by `Earliest`, type and host by first-wins, FINISHED by `Latest`, which is the combiner's FINISHED rule once a STARTED instant is known |
| Properties.EmptyIsDerived | src/main/java/com/test/event/OutputEvent.java:25-34 | a new accumulator satisfies the duration/alert invariant and its alert is null |
| Properties.StartFinishOrderIrrelevant | src/test/java/com/test/event/OutputEventTest.java:64-95 | one STARTED and one FINISHED event of an id give the same id, instants, duration and alert in either order; type and host are first-wins |
| Properties.CombineStartedWithFinished | src/test/java/com/test/event/OutputEventTest.java:188-247 | combining a STARTED-only partial with a FINISHED-only partial gives the sequential result; the swapped order agrees on id, instants, duration and alert |
| Properties.RunFromStart | src/main/java/com/test/event/OutputEvent.java:100-118 | from a fresh accumulator, a run of one id opening with a timed STARTED event keeps the minimum STARTED and maximum FINISHED instants, the first non-null type and host, and the derived duration and alert |
| Properties.AlertStaysComputed | src/main/java/com/test/event/OutputEvent.java:68-80 | once computed, the alert is never null again |
| Properties.PartitionAgreesWhenEachPartStarts | src/main/java/com/test/event/OutputEvent.java:128-138 | combining the partials of two parts of one id's events equals accepting all of them in order, when each part opens with a timed STARTED event |
| Properties.SingleMarkerRuns | src/test/java/com/test/event/OutputEventTest.java:36-63 | a lone STARTED or FINISHED event leaves the duration null and the alert false |
| Properties.EarlierStartLaterFinish | src/test/java/com/test/event/OutputEventTest.java:96-143 | two STARTED events in either order keep the earlier one; after a start, two FINISHED events in either order keep the later one; duration 4 does not alert |
| Properties.MinMaxExample | src/main/java/com/test/event/OutputEvent.java:44-66 | STARTED 5, 2, 8 keeps 2; after a start, FINISHED 5, 2, 8 keeps 8 |
| Properties.AlertBoundary | src/main/java/com/test/event/OutputEvent.java:75-79 | with threshold 4, duration 4 gives alert false and duration 5 gives alert true |
| Properties.FinishedBeforeStartSticks | src/main/java/com/test/event/OutputEvent.java:56-66 | FINISHED 5, FINISHED 8, STARTED 1 keeps 5 (duration 4, no alert), while STARTED first keeps 8 (duration 7, alert) |
| Properties.PartitioningChangesResult | src/main/java/com/test/event/OutputEvent.java:128-138 | splitting that run into two partials and combining them keeps FINISHED 8, unlike the sequential run |
| Properties.CombineNotAssociative | src/main/java/com/test/event/OutputEvent.java:128-138 | for one-event partials FINISHED 5, FINISHED 8 and STARTED 1, combining the first two first keeps FINISHED 5, and combining the last two first keeps FINISHED 8 |
| Properties.CombineNotCommutative | src/main/java/com/test/event/OutputEvent.java:128-138 | swapping the two partials changes the type: it comes from the first partial that has one |
| Properties.EmptyStringCountsAsSet | src/main/java/com/test/event/OutputEvent.java:82-92 | an empty type or host is kept against a later non-empty one |
| Properties.CombinerIdConflicts | src/main/java/com/test/event/OutputEvent.java:128-131 | the combiner throws for a partial with an id against one with a null id or a different id |
| Properties.AcceptIdConflict | src/test/java/com/test/event/OutputEventTest.java:144-187 | accepting an event whose id differs from the kept one throws, whatever its state |
| Processor.GetInputEventStream | src/main/java/com/test/CsaEventProcessor.java:82-84 | one event per line, in line order, each the decoder's result for its line |
| Processor.EventsWithId | src/main/java/com/test/CsaEventProcessor.java:97-98 | the events grouped under an id all carry that id and are no more than the input |
| Processor.EventsWithIdMembers | src/main/java/com/test/CsaEventProcessor.java:97-98 | every input event carrying the id is in its group, and everything in the group is an input event carrying the id |
| Processor.EventsWithIdConcat | src/main/java/com/test/CsaEventProcessor.java:97-98 | grouping distributes over concatenation of the input, keeping input order |
| Processor.KeyHasEvents | src/main/java/com/test/CsaEventProcessor.java:97-98 | every id that occurs has a non-empty group |
| Processor.AbsentKeyHasNoEvents | src/main/java/com/test/CsaEventProcessor.java:97-98 | an id that does not occur has an empty group |
| Processor.SummaryFor | src/main/java/com/test/CsaEventProcessor.java:99 | an id's events accepted in order into a new accumulator never throw, and the result holds that id |
| Processor.GroupSpec | src/main/java/com/test/CsaEventProcessor.java:94-102 | one summary per distinct id (as many as there are ids), each the summary of that id's events and holding that id |
| Processor.OtherIdsIrrelevant | src/main/java/com/test/CsaEventProcessor.java:94-102 | inserting an event of another id anywhere in the input does not change an id's summary |
| Processor.SummaryStep | src/main/java/com/test/CsaEventProcessor.java:99 | one more event is accepted into its own id's summary (an empty one for a new id) and leaves every other id's summary unchanged |
| Processor.AccumulatorFor | src/main/java/com/test/CsaEventProcessor.java:99 | the id's existing accumulator, or a new empty one added to the map under that id |
| Processor.AccumulateOne | src/main/java/com/test/CsaEventProcessor.java:97-99 | after one more event, the map covers the ids seen so far with distinct accumulators, each holding the summary of its id's events so far |
| Processor.GetOutputEventsStream | src/main/java/com/test/CsaEventProcessor.java:94-102 | one new, distinct accumulator per distinct id, each holding `GroupSpec`'s summary for that id |
| Processor.ProcessorScenario | src/test/java/com/test/CsaEventProcessorTest.java:113-160 | the six test events give three summaries: durations 5, 3 and 8, alerts true, false and true, type and host only for the first id |

## Left out

- The `OutputEvent` getters and `toString`, and `InputEvent.toString`: the getters are the fields read through `State()` and the datatype destructors; string formatting is not modelled.
- `InputEventFactory.buildEvent` is a parameter `decode: string -> InputEvent` of `GetInputEventStream`. JSON decoding is not modelled, and neither is the null event it returns on an `IOException`.
- A null `state` is not modelled: `accept` would throw a `NullPointerException` on it. `state` is a plain string.
- Processor.GetOutputEventsStream: requires every event to have an id. Java's `groupingBy` throws on a null key, and that path is not modelled.
- Processor.GetOutputEventsStream: models the sequential collector. The parallel collector splits the stream and merges partial accumulators with `combiner`. That scheduling is not modelled. What the merge does is stated by `Combine`, `PartitionAgreesWhenEachPartStarts` and `PartitioningChangesResult`.
- Processor.GetOutputEventsStream: returns the map from id to accumulator. The order of `HashMap.values()` is unspecified and is not modelled.
- `ALERT_THRESHOLD` is a mutable static in Java. Here it is a parameter, fixed for one run.
- The command line, `main`, `run`, `getInputStringStream` (file reading), `processOutputEventStream` and `OutputGenerator` (the HSQLDB sink): these are I/O, not part of the aggregation core. `OutputGenerator` is not part of this model.
- Logging calls: these have no effect on state.
- The six events of Processor.ProcessorScenario are those of the decoder's test vectors. The test input file `input.log` itself is not part of this model.
- Summaries.Combine: commutativity and associativity of the combiner are not stated as laws, because the code does not have them. Type and host come from the first argument (`CombineNotCommutative`), and the FINISHED rule depends on what was seen first (`CombineNotAssociative`).
