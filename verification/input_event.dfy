/**
 * The decoded input record of one log line (`InputEvent`): five fields set
 * once by the constructor and never changed afterwards.
 */
module InputEvents {
  import opened Wrappers

  /** The two lifecycle states the accumulator acts on. */
  const STARTED: string := "STARTED"
  const FINISHED: string := "FINISHED"

  /** The two markers are different strings, so an event is at most one of them. */
  lemma MarkersDiffer()
    ensures STARTED != FINISHED
  {
    assert |STARTED| != |FINISHED|;
  }

  /**
   * An input event. `id`, `timestamp`, `eventType` and `host` may be null;
   * `state` is any string (only STARTED and FINISHED have an effect later).
   * The datatype's destructors are the record's getters.
   */
  datatype InputEvent = InputEvent(
    id: Option<string>,
    state: string,
    timestamp: Option<real>,
    eventType: Option<string>,
    host: Option<string>)

  /** Whether the event is a STARTED marker carrying a timestamp. */
  predicate IsTimedStart(e: InputEvent) {
    e.state == STARTED && e.timestamp.Some?
  }

  /** Whether the event is a FINISHED marker carrying a timestamp. */
  predicate IsTimedFinish(e: InputEvent) {
    e.state == FINISHED && e.timestamp.Some?
  }

  /**
   * Every getter returns exactly what the constructor was given, and an
   * event is rebuilt from its getters unchanged: nothing is normalised,
   * nulls stay null and the state is not restricted to the two markers.
   */
  lemma GettersReturnConstructorArguments(id: Option<string>, state: string, timestamp: Option<real>,
                                          eventType: Option<string>, host: Option<string>)
    ensures var e := InputEvent(id, state, timestamp, eventType, host);
      && e.id == id && e.state == state && e.timestamp == timestamp
      && e.eventType == eventType && e.host == host
      && InputEvent(e.id, e.state, e.timestamp, e.eventType, e.host) == e
  {
  }
}
