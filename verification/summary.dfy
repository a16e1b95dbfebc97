/**
 * The value view of one `OutputEvent` accumulator and of its update steps:
 * each function here is what the corresponding method of the class does to
 * the seven fields, so that properties of several steps can be stated as
 * lemmas.
 */
module Summaries {
  import opened Wrappers
  import opened InputEvents

  /** The exception `acceptId` throws (Java's IllegalArgumentException). */
  datatype IdError = IllegalArgument(message: string)

  const ID_MISMATCH: string := "Only events with the same ID can be combined!"

  /** The seven fields of an `OutputEvent`; every one of them may be null. */
  datatype Summary = Summary(
    id: Option<string>,
    duration: Option<real>,
    eventType: Option<string>,
    host: Option<string>,
    alert: Option<bool>,
    started: Option<real>,
    finished: Option<real>)

  /** A freshly constructed accumulator: every field null, the alert included. */
  function Empty(): Summary {
    Summary(None, None, None, None, None, None, None)
  }

  // Reference definitions, written independently of the update code.

  /** The earlier of two nullable instants; null only when both are null. */
  function Earliest(a: Option<real>, b: Option<real>): Option<real> {
    if a.None? then b
    else if b.None? then a
    else if a.value <= b.value then a else b
  }

  /** The later of two nullable instants; null only when both are null. */
  function Latest(a: Option<real>, b: Option<real>): Option<real> {
    if a.None? then b
    else if b.None? then a
    else if a.value >= b.value then a else b
  }

  /** Finish minus start when both are known. */
  function Elapsed(started: Option<real>, finished: Option<real>): Option<real> {
    if started.Some? && finished.Some? then Some(finished.value - started.value) else None
  }

  /** The strict threshold test: only a known duration above the threshold alerts. */
  predicate Exceeds(duration: Option<real>, threshold: int) {
    duration.Some? && duration.value > threshold as real
  }

  /**
   * The derived fields agree with the timestamps: the duration is always the
   * elapsed time, and the alert, once it has been computed, is the threshold
   * test on that duration.
   */
  predicate Derived(s: Summary, threshold: int) {
    && s.duration == Elapsed(s.started, s.finished)
    && (s.alert.Some? ==> s.alert.value == Exceeds(s.duration, threshold))
  }

  // The update steps of OutputEvent.

  /** `acceptId`: the first id is kept; a different later id (null included) throws. */
  function AcceptId(s: Summary, arg: Option<string>): (r: Result<Summary, IdError>)
    ensures r.Failure? <==> s.id.Some? && s.id != arg
    ensures r.Failure? ==> r.error == IllegalArgument(ID_MISMATCH)
    ensures r.Success? ==> r.value == s.(id := FirstSet(s.id, arg))
  {
    if s.id.None? then Success(s.(id := arg))
    else if s.id != arg then Failure(IllegalArgument(ID_MISMATCH))
    else Success(s)
  }

  /** `updateDurationAndAlert`: recompute the duration and the alert from the timestamps. */
  function UpdateDurationAndAlert(s: Summary, threshold: int): (r: Summary)
    ensures Derived(r, threshold) && r.alert.Some?
    ensures r.(duration := s.duration, alert := s.alert) == s
  {
    var duration := if s.started.Some? && s.finished.Some? then Some(s.finished.value - s.started.value) else None;
    var alert := if duration.Some? then duration.value > threshold as real else false;
    s.(duration := duration, alert := Some(alert))
  }

  /** `acceptStartedTimestamp`: keep the earliest STARTED instant. */
  function AcceptStarted(s: Summary, arg: Option<real>, threshold: int): (r: Summary)
    ensures r.started == Earliest(s.started, arg)
    ensures r.finished == s.finished && r.id == s.id && r.eventType == s.eventType && r.host == s.host
    ensures Derived(r, threshold) && r.alert.Some?
  {
    var started := if s.started.None? then arg else s.started;
    var started := if started.Some? && arg.Some? && started.value > arg.value then arg else started;
    UpdateDurationAndAlert(s.(started := started), threshold)
  }

  /**
   * `acceptFinishedTimestamp`: the comparison is guarded by the STARTED
   * instant being known, so before any STARTED instant the first FINISHED
   * instant sticks, and only afterwards is the latest one kept.
   */
  function AcceptFinished(s: Summary, arg: Option<real>, threshold: int): (r: Summary)
    ensures r.finished == if s.started.Some? then Latest(s.finished, arg) else FirstSet(s.finished, arg)
    ensures r.started == s.started && r.id == s.id && r.eventType == s.eventType && r.host == s.host
    ensures Derived(r, threshold) && r.alert.Some?
  {
    var finished := if s.finished.None? then arg else s.finished;
    var finished := if s.started.Some? && arg.Some? && finished.value < arg.value then arg else finished;
    UpdateDurationAndAlert(s.(finished := finished), threshold)
  }

  /**
   * `accept`: fold one input event into the accumulator. Throws, leaving
   * nothing changed, exactly when an id is already kept and the event's id
   * differs from it.
   */
  function Accept(s: Summary, e: InputEvent, threshold: int): (r: Result<Summary, IdError>)
    ensures r.Failure? <==> s.id.Some? && s.id != e.id
    ensures r.Success? ==> r.value.id == FirstSet(s.id, e.id)
    ensures r.Success? ==> r.value.started == if e.state == STARTED then Earliest(s.started, e.timestamp) else s.started
    ensures r.Success? ==>
              r.value.finished == (if e.state != FINISHED then s.finished
              else if s.started.Some? then Latest(s.finished, e.timestamp)
              else FirstSet(s.finished, e.timestamp))
    ensures r.Success? ==> r.value.eventType == FirstSet(s.eventType, e.eventType)
    ensures r.Success? ==> r.value.host == FirstSet(s.host, e.host)
    ensures r.Success? && e.state != STARTED && e.state != FINISHED ==>
      r.value.duration == s.duration && r.value.alert == s.alert
    ensures r.Success? && (e.state == STARTED || e.state == FINISHED) ==> r.value.alert.Some?
    ensures r.Success? && Derived(s, threshold) ==> Derived(r.value, threshold)
  {
    match AcceptId(s, e.id)
    case Failure(err) => Failure(err)
    case Success(s1) =>
      var s2 := if e.state == STARTED then AcceptStarted(s1, e.timestamp, threshold) else s1;
      var s3 := if e.state == FINISHED then AcceptFinished(s2, e.timestamp, threshold) else s2;
      Success(s3.(host := FirstSet(s3.host, e.host), eventType := FirstSet(s3.eventType, e.eventType)))
  }

  /**
   * `combiner(a, b)`: apply b's id, STARTED instant, FINISHED instant, host
   * and type to a with the same rules, in that order. The FINISHED guard is
   * evaluated after a's STARTED instant has been updated from b's.
   */
  function Combine(a: Summary, b: Summary, threshold: int): (r: Result<Summary, IdError>)
    ensures r.Failure? <==> a.id.Some? && a.id != b.id
    ensures r.Success? ==> r.value.id == FirstSet(a.id, b.id)
    ensures r.Success? ==> r.value.started == Earliest(a.started, b.started)
    ensures r.Success? ==>
              r.value.finished == (if Earliest(a.started, b.started).Some? then Latest(a.finished, b.finished)
              else FirstSet(a.finished, b.finished))
    ensures r.Success? ==> r.value.eventType == FirstSet(a.eventType, b.eventType)
    ensures r.Success? ==> r.value.host == FirstSet(a.host, b.host)
    ensures r.Success? ==> Derived(r.value, threshold) && r.value.alert.Some?
  {
    match AcceptId(a, b.id)
    case Failure(err) => Failure(err)
    case Success(a1) =>
      var a2 := AcceptStarted(a1, b.started, threshold);
      var a3 := AcceptFinished(a2, b.finished, threshold);
      Success(a3.(host := FirstSet(a3.host, b.host), eventType := FirstSet(a3.eventType, b.eventType)))
  }
}
