/**
 * Accepting a sequence of events one after the other into one accumulator,
 * and what the result is in terms of the events alone.
 */
module Accumulation {
  import opened Wrappers
  import opened InputEvents
  import opened Summaries

  /** Accept one more event unless an id conflict has already been thrown. */
  function Then(r: Result<Summary, IdError>, e: InputEvent, threshold: int): Result<Summary, IdError> {
    match r
    case Failure(err) => Failure(err)
    case Success(s) => Accept(s, e, threshold)
  }

  /** Accept the events in order; the first id conflict ends the run. */
  function AcceptAll(s: Summary, events: seq<InputEvent>, threshold: int): Result<Summary, IdError>
    decreases |events|
  {
    if events == [] then Success(s)
    else Then(AcceptAll(s, events[..|events| - 1], threshold), events[|events| - 1], threshold)
  }

  /** Short runs, spelled out step by step. */
  lemma ShortRuns(s: Summary, a: InputEvent, b: InputEvent, c: InputEvent, d: InputEvent, threshold: int)
    ensures AcceptAll(s, [a], threshold) == Accept(s, a, threshold)
    ensures AcceptAll(s, [a, b], threshold) == Then(Accept(s, a, threshold), b, threshold)
    ensures AcceptAll(s, [a, b, c], threshold) == Then(Then(Accept(s, a, threshold), b, threshold), c, threshold)
    ensures AcceptAll(s, [a, b, c, d], threshold)
            == Then(Then(Then(Accept(s, a, threshold), b, threshold), c, threshold), d, threshold)
  {
    assert [a, b, c, d][..3] == [a, b, c];
    assert [a, b, c][..2] == [a, b];
    assert [a, b][..1] == [a];
  }

  /** Every event carries the id `k`. */
  predicate AllWithId(events: seq<InputEvent>, k: string) {
    forall i :: 0 <= i < |events| ==> events[i].id == Some(k)
  }

  // Reference folds over the events, one per field rule.

  /** The earliest timestamp among `init` and the STARTED events. */
  function EarliestStart(init: Option<real>, events: seq<InputEvent>): Option<real>
    decreases |events|
  {
    if events == [] then init
    else
      var e := events[|events| - 1];
      var p := EarliestStart(init, events[..|events| - 1]);
      if e.state == STARTED then Earliest(p, e.timestamp) else p
  }

  /** The latest timestamp among `init` and the FINISHED events. */
  function LatestFinish(init: Option<real>, events: seq<InputEvent>): Option<real>
    decreases |events|
  {
    if events == [] then init
    else
      var e := events[|events| - 1];
      var p := LatestFinish(init, events[..|events| - 1]);
      if e.state == FINISHED then Latest(p, e.timestamp) else p
  }

  /** `init` if set, else the first non-null type among the events. */
  function FirstType(init: Option<string>, events: seq<InputEvent>): Option<string>
    decreases |events|
  {
    if events == [] then init
    else FirstSet(FirstType(init, events[..|events| - 1]), events[|events| - 1].eventType)
  }

  /** `init` if set, else the first non-null host among the events. */
  function FirstHost(init: Option<string>, events: seq<InputEvent>): Option<string>
    decreases |events|
  {
    if events == [] then init
    else FirstSet(FirstHost(init, events[..|events| - 1]), events[|events| - 1].host)
  }

  /**
   * Events that all carry the accumulator's own id never raise the id
   * conflict, and the accumulator ends up holding that id.
   */
  lemma {:induction false} SameIdNeverFails(s: Summary, events: seq<InputEvent>, k: string, threshold: int)
    requires s.id == None || s.id == Some(k)
    requires AllWithId(events, k)
    ensures AcceptAll(s, events, threshold).Success?
    ensures AcceptAll(s, events, threshold).value.id == if events == [] then s.id else Some(k)
  {
    if events != [] {
      SameIdNeverFails(s, events[..|events| - 1], k, threshold);
    }
  }

  /**
   * A successful run keeps the earliest STARTED instant, the first non-null
   * type and host, and derived fields that agree with the timestamps.
   */
  lemma {:induction false} AcceptAllFields(s: Summary, events: seq<InputEvent>, threshold: int)
    requires AcceptAll(s, events, threshold).Success?
    ensures var r := AcceptAll(s, events, threshold).value;
      && r.started == EarliestStart(s.started, events)
      && r.eventType == FirstType(s.eventType, events)
      && r.host == FirstHost(s.host, events)
      && (Derived(s, threshold) ==> Derived(r, threshold))
  {
    if events != [] {
      AcceptAllFields(s, events[..|events| - 1], threshold);
    }
  }

  /**
   * Once a STARTED instant is known, every later FINISHED instant is
   * compared, so the latest FINISHED instant is kept.
   */
  lemma {:induction false} LatestFinishOnceStarted(s: Summary, events: seq<InputEvent>, threshold: int)
    requires s.started.Some?
    requires AcceptAll(s, events, threshold).Success?
    ensures AcceptAll(s, events, threshold).value.started.Some?
    ensures AcceptAll(s, events, threshold).value.finished == LatestFinish(s.finished, events)
  {
    if events != [] {
      LatestFinishOnceStarted(s, events[..|events| - 1], threshold);
    }
  }

  /** Accepting `xs + ys` is accepting `xs` and then `ys` from where it left off. */
  lemma {:induction false} AcceptAllConcat(s: Summary, xs: seq<InputEvent>, ys: seq<InputEvent>, threshold: int)
    ensures AcceptAll(s, xs + ys, threshold) ==
      match AcceptAll(s, xs, threshold)
      case Failure(err) => Failure(err)
      case Success(m) => AcceptAll(m, ys, threshold)
  {
    if ys == [] {
      assert xs + ys == xs;
    } else {
      AcceptAllConcat(s, xs, ys[..|ys| - 1], threshold);
      assert (xs + ys)[..|xs + ys| - 1] == xs + ys[..|ys| - 1];
    }
  }

  /** `init` if set, else the timestamp of the first FINISHED event that carries one. */
  function FirstFinish(init: Option<real>, events: seq<InputEvent>): Option<real>
    decreases |events|
  {
    if events == [] then init
    else
      var e := events[|events| - 1];
      var p := FirstFinish(init, events[..|events| - 1]);
      if e.state == FINISHED then FirstSet(p, e.timestamp) else p
  }

  /** The position of the first STARTED event carrying a timestamp, or `|events|` if there is none. */
  function FirstTimedStart(events: seq<InputEvent>): (j: nat)
    ensures j <= |events|
    ensures forall i :: 0 <= i < j ==> !IsTimedStart(events[i])
    ensures j < |events| ==> IsTimedStart(events[j])
  {
    if events == [] then 0
    else if IsTimedStart(events[0]) then 0
    else 1 + FirstTimedStart(events[1..])
  }

  /**
   * Until a STARTED instant is known, no STARTED instant appears and the
   * first FINISHED instant sticks.
   */
  lemma {:induction false} FirstFinishBeforeStart(s: Summary, events: seq<InputEvent>, threshold: int)
    requires s.started.None?
    requires forall i :: 0 <= i < |events| ==> !IsTimedStart(events[i])
    requires AcceptAll(s, events, threshold).Success?
    ensures AcceptAll(s, events, threshold).value.started.None?
    ensures AcceptAll(s, events, threshold).value.finished == FirstFinish(s.finished, events)
  {
    if events != [] {
      var n := |events| - 1;
      assert forall i :: 0 <= i < n ==> events[..n][i] == events[i];
      FirstFinishBeforeStart(s, events[..n], threshold);
    }
  }

  /** The first timed STARTED event sets the STARTED instant and leaves the sticky FINISHED instant as it was. */
  lemma FirstStartAfter(pre: seq<InputEvent>, st: InputEvent, threshold: int)
    requires forall i :: 0 <= i < |pre| ==> !IsTimedStart(pre[i])
    requires IsTimedStart(st)
    requires AcceptAll(Empty(), pre + [st], threshold).Success?
    ensures AcceptAll(Empty(), pre + [st], threshold).value.started.Some?
    ensures AcceptAll(Empty(), pre + [st], threshold).value.finished == FirstFinish(None, pre)
  {
    assert (pre + [st])[..|pre|] == pre;
    FirstFinishBeforeStart(Empty(), pre, threshold);
    MarkersDiffer();
  }

  /**
   * The FINISHED instant of any successful run from a fresh accumulator:
   * the first FINISHED instant seen before the first timed STARTED event,
   * then the latest of it and every FINISHED instant after that event.
   */
  lemma FinishOfAnyRun(events: seq<InputEvent>, threshold: int)
    requires AcceptAll(Empty(), events, threshold).Success?
    ensures var j := FirstTimedStart(events);
      AcceptAll(Empty(), events, threshold).value.finished
      == if j < |events| then LatestFinish(FirstFinish(None, events[..j]), events[j + 1..])
         else FirstFinish(None, events)
  {
    var j := FirstTimedStart(events);
    if j == |events| {
      assert events[..j] == events;
      FirstFinishBeforeStart(Empty(), events, threshold);
    } else {
      var pre, rest := events[..j], events[j + 1..];
      var start := pre + [events[j]];
      assert events == start + rest;
      AcceptAllConcat(Empty(), start, rest, threshold);
      FirstStartAfter(pre, events[j], threshold);
      LatestFinishOnceStarted(AcceptAll(Empty(), start, threshold).value, rest, threshold);
    }
  }

  // The reference folds against their plain meaning.

  /** The STARTED fold is the minimum over the STARTED events carrying a timestamp. */
  lemma {:induction false} EarliestStartIsMinimum(events: seq<InputEvent>)
    ensures var r := EarliestStart(None, events);
      && (r.None? <==> forall i :: 0 <= i < |events| ==> !IsTimedStart(events[i]))
      && (r.Some? ==> exists i :: 0 <= i < |events| && IsTimedStart(events[i]) && events[i].timestamp == r)
      && (forall i :: 0 <= i < |events| && IsTimedStart(events[i]) ==> r.Some? && r.value <= events[i].timestamp.value)
  {
    if events != [] {
      var n := |events| - 1;
      EarliestStartIsMinimum(events[..n]);
      var p := EarliestStart(None, events[..n]);
      assert forall i :: 0 <= i < n ==> events[..n][i] == events[i];
      if p.Some? {
        var j :| 0 <= j < n && IsTimedStart(events[..n][j]) && events[..n][j].timestamp == p;
        assert IsTimedStart(events[j]) && events[j].timestamp == p;
      }
    }
  }

  /** The FINISHED fold is the maximum over the FINISHED events carrying a timestamp. */
  lemma {:induction false} LatestFinishIsMaximum(events: seq<InputEvent>)
    ensures var r := LatestFinish(None, events);
      && (r.None? <==> forall i :: 0 <= i < |events| ==> !IsTimedFinish(events[i]))
      && (r.Some? ==> exists i :: 0 <= i < |events| && IsTimedFinish(events[i]) && events[i].timestamp == r)
      && (forall i :: 0 <= i < |events| && IsTimedFinish(events[i]) ==> r.Some? && events[i].timestamp.value <= r.value)
  {
    if events != [] {
      var n := |events| - 1;
      LatestFinishIsMaximum(events[..n]);
      var p := LatestFinish(None, events[..n]);
      assert forall i :: 0 <= i < n ==> events[..n][i] == events[i];
      if p.Some? {
        var j :| 0 <= j < n && IsTimedFinish(events[..n][j]) && events[..n][j].timestamp == p;
        assert IsTimedFinish(events[j]) && events[j].timestamp == p;
      }
    }
  }

  /** The type fold picks the first non-null type, an empty string included. */
  lemma {:induction false} FirstTypeIsFirstNonNull(events: seq<InputEvent>)
    ensures var r := FirstType(None, events);
      && (r.None? <==> forall i :: 0 <= i < |events| ==> events[i].eventType.None?)
      && (r.Some? ==> exists i :: 0 <= i < |events| && events[i].eventType == r
                                  && forall j :: 0 <= j < i ==> events[j].eventType.None?)
  {
    if events != [] {
      var n := |events| - 1;
      FirstTypeIsFirstNonNull(events[..n]);
      var p := FirstType(None, events[..n]);
      assert forall i :: 0 <= i < n ==> events[..n][i] == events[i];
      if p.Some? {
        var j :| 0 <= j < n && events[..n][j].eventType == p && forall m :: 0 <= m < j ==> events[..n][m].eventType.None?;
        assert events[j].eventType == p && forall m :: 0 <= m < j ==> events[m].eventType.None?;
      }
    }
  }

  /** The host fold picks the first non-null host, an empty string included. */
  lemma {:induction false} FirstHostIsFirstNonNull(events: seq<InputEvent>)
    ensures var r := FirstHost(None, events);
      && (r.None? <==> forall i :: 0 <= i < |events| ==> events[i].host.None?)
      && (r.Some? ==> exists i :: 0 <= i < |events| && events[i].host == r
                                  && forall j :: 0 <= j < i ==> events[j].host.None?)
  {
    if events != [] {
      var n := |events| - 1;
      FirstHostIsFirstNonNull(events[..n]);
      var p := FirstHost(None, events[..n]);
      assert forall i :: 0 <= i < n ==> events[..n][i] == events[i];
      if p.Some? {
        var j :| 0 <= j < n && events[..n][j].host == p && forall m :: 0 <= m < j ==> events[..n][m].host.None?;
        assert events[j].host == p && forall m :: 0 <= m < j ==> events[m].host.None?;
      }
    }
  }

  /** Each reference fold over `xs + ys` splits into a fold over each part, merged by its rule. */
  lemma {:induction false} FoldsSplit(init: Summary, xs: seq<InputEvent>, ys: seq<InputEvent>)
    ensures EarliestStart(init.started, xs + ys) == Earliest(EarliestStart(init.started, xs), EarliestStart(None, ys))
    ensures LatestFinish(init.finished, xs + ys) == Latest(LatestFinish(init.finished, xs), LatestFinish(None, ys))
    ensures FirstType(init.eventType, xs + ys) == FirstSet(FirstType(init.eventType, xs), FirstType(None, ys))
    ensures FirstHost(init.host, xs + ys) == FirstSet(FirstHost(init.host, xs), FirstHost(None, ys))
  {
    if ys == [] {
      assert xs + ys == xs;
    } else {
      FoldsSplit(init, xs, ys[..|ys| - 1]);
      assert (xs + ys)[..|xs + ys| - 1] == xs + ys[..|ys| - 1];
    }
  }
}
