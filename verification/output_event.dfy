/**
 * `OutputEvent`: the mutable per-id accumulator. Every method changes the
 * fields in place exactly as the value step of the same name in `Summaries`
 * describes; `State()` reads the seven fields as one value.
 */
module OutputEvents {
  import opened Wrappers
  import opened InputEvents
  import opened Summaries

  class OutputEvent {
    var id: Option<string>
    var duration: Option<real>
    var eventType: Option<string>
    var host: Option<string>
    var alert: Option<bool>
    var startedTimestamp: Option<real>
    var finishedTimestamp: Option<real>

    /** The fields as a value; its components are the class's getters. */
    function State(): Summary
      reads this
    {
      Summary(id, duration, eventType, host, alert, startedTimestamp, finishedTimestamp)
    }

    /** A new accumulator has every field null, the alert included. */
    constructor ()
      ensures id.None? && duration.None? && eventType.None? && host.None? && alert.None?
      ensures startedTimestamp.None? && finishedTimestamp.None?
      ensures State() == Empty()
    {
      id := None;
      duration := None;
      eventType := None;
      host := None;
      alert := None;
      startedTimestamp := None;
      finishedTimestamp := None;
    }

    /** Keep the first id; a different later id throws before anything changes. */
    method AcceptId(arg: Option<string>) returns (r: Result<(), IdError>)
      modifies this
      ensures r.Failure? <==> old(id).Some? && old(id) != arg
      ensures r.Failure? ==> r.error == IllegalArgument(ID_MISMATCH) && State() == old(State())
      ensures r.Success? ==> State() == Summaries.AcceptId(old(State()), arg).value
    {
      if id.None? {
        id := arg;
      } else if id != arg {
        return Failure(IllegalArgument(ID_MISMATCH));
      }
      r := Success(());
    }

    method UpdateDurationAndAlert(threshold: int)
      modifies this
      ensures State() == Summaries.UpdateDurationAndAlert(old(State()), threshold)
    {
      if startedTimestamp.Some? && finishedTimestamp.Some? {
        duration := Some(finishedTimestamp.value - startedTimestamp.value);
      } else {
        duration := None;
      }
      if duration.Some? {
        alert := Some(duration.value > threshold as real);
      } else {
        alert := Some(false);
      }
    }

    method AcceptStartedTimestamp(arg: Option<real>, threshold: int)
      modifies this
      ensures State() == AcceptStarted(old(State()), arg, threshold)
    {
      if startedTimestamp.None? {
        startedTimestamp := arg;
      }
      if startedTimestamp.Some? && arg.Some? {
        if startedTimestamp.value > arg.value {
          startedTimestamp := arg;
        }
      }
      UpdateDurationAndAlert(threshold);
    }

    method AcceptFinishedTimestamp(arg: Option<real>, threshold: int)
      modifies this
      ensures State() == AcceptFinished(old(State()), arg, threshold)
    {
      if finishedTimestamp.None? {
        finishedTimestamp := arg;
      }
      if startedTimestamp.Some? && arg.Some? {
        if finishedTimestamp.value < arg.value {
          finishedTimestamp := arg;
        }
      }
      UpdateDurationAndAlert(threshold);
    }

    method AcceptHost(arg: Option<string>)
      modifies this
      ensures State() == old(State()).(host := FirstSet(old(host), arg))
    {
      if host.None? {
        host := arg;
      }
    }

    method AcceptType(arg: Option<string>)
      modifies this
      ensures State() == old(State()).(eventType := FirstSet(old(eventType), arg))
    {
      if eventType.None? {
        eventType := arg;
      }
    }

    /**
     * Fold one input event into this accumulator and return it, or throw
     * the id conflict with every field unchanged.
     */
    method Accept(e: InputEvent, threshold: int) returns (r: Result<OutputEvent, IdError>)
      modifies this
      ensures r.Success? <==> Summaries.Accept(old(State()), e, threshold).Success?
      ensures r.Success? ==> r.value == this && State() == Summaries.Accept(old(State()), e, threshold).value
      ensures r.Failure? ==> r.error == Summaries.Accept(old(State()), e, threshold).error && State() == old(State())
    {
      var idOutcome := AcceptId(e.id);
      if idOutcome.Failure? {
        return Failure(idOutcome.error);
      }
      if e.state == STARTED {
        AcceptStartedTimestamp(e.timestamp, threshold);
      }
      if e.state == FINISHED {
        AcceptFinishedTimestamp(e.timestamp, threshold);
      }
      AcceptHost(e.host);
      AcceptType(e.eventType);
      r := Success(this);
    }

    /**
     * Merge the partial accumulator `b` into `a` in place and return `a`,
     * or throw the id conflict with `a` unchanged. `b` is only read.
     */
    static method Combiner(a: OutputEvent, b: OutputEvent, threshold: int) returns (r: Result<OutputEvent, IdError>)
      modifies a
      ensures r.Success? <==> Combine(old(a.State()), old(b.State()), threshold).Success?
      ensures r.Success? ==> r.value == a && a.State() == Combine(old(a.State()), old(b.State()), threshold).value
      ensures r.Failure? ==> r.error == Combine(old(a.State()), old(b.State()), threshold).error
      ensures r.Failure? ==> a.State() == old(a.State())
      ensures b != a ==> b.State() == old(b.State())
    {
      var idOutcome := a.AcceptId(b.id);
      if idOutcome.Failure? {
        return Failure(idOutcome.error);
      }
      a.AcceptStartedTimestamp(b.startedTimestamp, threshold);
      a.AcceptFinishedTimestamp(b.finishedTimestamp, threshold);
      a.AcceptHost(b.host);
      a.AcceptType(b.eventType);
      r := Success(a);
    }
  }
}
