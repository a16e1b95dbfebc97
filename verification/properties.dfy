/**
 * What the accumulator and the combiner guarantee across several events or
 * partial accumulators, and where the order of events does matter.
 */
module Properties {
  import opened Wrappers
  import opened InputEvents
  import opened Summaries
  import opened Accumulation

  /** A freshly constructed accumulator satisfies the derived-field invariant. */
  lemma EmptyIsDerived(threshold: int)
    ensures Derived(Empty(), threshold) && Empty().alert.None?
  {
  }

  /**
   * One STARTED and one FINISHED event for the same id give the same id,
   * timestamps, duration and alert in either order; type and host are those
   * of whichever event came first, or of the other one if that is null.
   */
  lemma StartFinishOrderIrrelevant(st: InputEvent, fin: InputEvent, threshold: int)
    requires st.state == STARTED && fin.state == FINISHED && st.id == fin.id
    ensures AcceptAll(Empty(), [st, fin], threshold).Success?
    ensures AcceptAll(Empty(), [fin, st], threshold).Success?
    ensures var a := AcceptAll(Empty(), [st, fin], threshold).value;
            var b := AcceptAll(Empty(), [fin, st], threshold).value;
      && a.id == b.id == st.id
      && a.started == b.started == st.timestamp
      && a.finished == b.finished == fin.timestamp
      && a.duration == b.duration == Elapsed(st.timestamp, fin.timestamp)
      && a.alert == b.alert == Some(Exceeds(Elapsed(st.timestamp, fin.timestamp), threshold))
      && a.eventType == FirstSet(st.eventType, fin.eventType)
      && b.eventType == FirstSet(fin.eventType, st.eventType)
      && a.host == FirstSet(st.host, fin.host)
      && b.host == FirstSet(fin.host, st.host)
  {
    MarkersDiffer();
    ShortRuns(Empty(), st, fin, st, fin, threshold);
    ShortRuns(Empty(), fin, st, fin, st, threshold);
  }

  /**
   * Combining a STARTED-only partial with a FINISHED-only partial of the
   * same id gives, in either argument order, the id, timestamps, duration
   * and alert of accepting both events into one accumulator; type and host
   * come from the first argument unless it has none.
   */
  lemma CombineStartedWithFinished(st: InputEvent, fin: InputEvent, threshold: int)
    requires st.state == STARTED && fin.state == FINISHED && st.id == fin.id
    ensures Accept(Empty(), st, threshold).Success? && Accept(Empty(), fin, threshold).Success?
    ensures var p := Accept(Empty(), st, threshold).value;
            var q := Accept(Empty(), fin, threshold).value;
            var whole := AcceptAll(Empty(), [st, fin], threshold);
      && Combine(p, q, threshold).Success? && Combine(q, p, threshold).Success? && whole.Success?
      && var pq := Combine(p, q, threshold).value;
         var qp := Combine(q, p, threshold).value;
         && pq == whole.value
         && qp.id == pq.id && qp.started == pq.started && qp.finished == pq.finished
         && qp.duration == pq.duration && qp.alert == pq.alert
         && qp.eventType == FirstSet(fin.eventType, st.eventType)
         && qp.host == FirstSet(fin.host, st.host)
  {
    MarkersDiffer();
    ShortRuns(Empty(), st, fin, st, fin, threshold);
  }

  /** A run that opens with a STARTED event carrying a timestamp. */
  predicate OpensWithStart(events: seq<InputEvent>) {
    |events| > 0 && IsTimedStart(events[0])
  }

  /**
   * From a fresh accumulator, a run that opens with a timed STARTED event
   * ends with the earliest STARTED instant, the latest FINISHED instant,
   * the first non-null type and host, and the duration and alert derived
   * from them.
   */
  lemma {:induction false} RunFromStart(events: seq<InputEvent>, k: string, threshold: int)
    requires AllWithId(events, k) && OpensWithStart(events)
    ensures AcceptAll(Empty(), events, threshold).Success?
    ensures var r := AcceptAll(Empty(), events, threshold).value;
      && r.id == Some(k)
      && r.started == EarliestStart(None, events) && r.started.Some?
      && r.finished == LatestFinish(None, events)
      && r.eventType == FirstType(None, events)
      && r.host == FirstHost(None, events)
      && r.duration == Elapsed(r.started, r.finished)
      && r.alert == Some(Exceeds(r.duration, threshold))
  {
    SameIdNeverFails(Empty(), events, k, threshold);
    AcceptAllFields(Empty(), events, threshold);
    var head, tail := events[..1], events[1..];
    assert events == head + tail;
    AcceptAllConcat(Empty(), head, tail, threshold);
    assert head[..0] == [];
    var h := AcceptAll(Empty(), head, threshold).value;
    assert h.started == events[0].timestamp && h.finished.None? && h.alert.Some?;
    LatestFinishOnceStarted(h, tail, threshold);
    FoldsSplit(Empty(), head, tail);
    assert LatestFinish(None, head) == None;
    AlertStaysComputed(h, tail, threshold);
  }

  /** Once computed, the alert is never null again. */
  lemma {:induction false} AlertStaysComputed(s: Summary, events: seq<InputEvent>, threshold: int)
    requires s.alert.Some?
    requires AcceptAll(s, events, threshold).Success?
    ensures AcceptAll(s, events, threshold).value.alert.Some?
  {
    if events != [] {
      AlertStaysComputed(s, events[..|events| - 1], threshold);
    }
  }

  /**
   * Splitting one id's events into two parts, accumulating each part on
   * its own and combining the partials gives the sequential result,
   * provided each part opens with a timed STARTED event (so that every
   * FINISHED instant is compared in both computations).
   */
  lemma PartitionAgreesWhenEachPartStarts(xs: seq<InputEvent>, ys: seq<InputEvent>, k: string, threshold: int)
    requires AllWithId(xs, k) && AllWithId(ys, k)
    requires OpensWithStart(xs) && OpensWithStart(ys)
    ensures AcceptAll(Empty(), xs, threshold).Success? && AcceptAll(Empty(), ys, threshold).Success?
    ensures Combine(AcceptAll(Empty(), xs, threshold).value, AcceptAll(Empty(), ys, threshold).value, threshold)
            == AcceptAll(Empty(), xs + ys, threshold)
  {
    assert AllWithId(xs + ys, k);
    RunFromStart(xs, k, threshold);
    RunFromStart(ys, k, threshold);
    RunFromStart(xs + ys, k, threshold);
    FoldsSplit(Empty(), xs, ys);
  }

  // Concrete runs: the test expectations, and where order matters.

  function Ev(state: string, t: real): InputEvent {
    InputEvent(Some(""), state, Some(t), Some(""), Some(""))
  }

  /** STARTED {5, 2, 8} keeps 2; FINISHED {5, 2, 8} after a start keeps 8. */
  lemma MinMaxExample()
    ensures AcceptAll(Empty(), [Ev(STARTED, 5.0), Ev(STARTED, 2.0), Ev(STARTED, 8.0)], 4).Success?
    ensures AcceptAll(Empty(), [Ev(STARTED, 5.0), Ev(STARTED, 2.0), Ev(STARTED, 8.0)], 4).value.started == Some(2.0)
    ensures AcceptAll(Empty(), [Ev(STARTED, 0.0), Ev(FINISHED, 5.0), Ev(FINISHED, 2.0), Ev(FINISHED, 8.0)], 4).Success?
    ensures AcceptAll(Empty(), [Ev(STARTED, 0.0), Ev(FINISHED, 5.0), Ev(FINISHED, 2.0), Ev(FINISHED, 8.0)], 4).value.finished == Some(8.0)
  {
    MarkersDiffer();
    ShortRuns(Empty(), Ev(STARTED, 5.0), Ev(STARTED, 2.0), Ev(STARTED, 8.0), Ev(STARTED, 8.0), 4);
    ShortRuns(Empty(), Ev(STARTED, 0.0), Ev(FINISHED, 5.0), Ev(FINISHED, 2.0), Ev(FINISHED, 8.0), 4);
  }

  /**
   * A single STARTED or FINISHED event leaves the duration null and sets
   * the alert to false.
   */
  lemma SingleMarkerRuns()
    ensures Accept(Empty(), Ev(STARTED, 3.0), 4)
            == Success(Summary(Some(""), None, Some(""), Some(""), Some(false), Some(3.0), None))
    ensures Accept(Empty(), Ev(FINISHED, 8.0), 4)
            == Success(Summary(Some(""), None, Some(""), Some(""), Some(false), None, Some(8.0)))
  {
    MarkersDiffer();
  }

  /**
   * Two STARTED events in either order keep the earlier one; after a start,
   * two FINISHED events in either order keep the later one.
   */
  lemma EarlierStartLaterFinish()
    ensures AcceptAll(Empty(), [Ev(STARTED, 1.0), Ev(STARTED, 2.0), Ev(FINISHED, 5.0)], 4)
            == Success(Summary(Some(""), Some(4.0), Some(""), Some(""), Some(false), Some(1.0), Some(5.0)))
    ensures AcceptAll(Empty(), [Ev(STARTED, 2.0), Ev(STARTED, 1.0), Ev(FINISHED, 5.0)], 4)
            == Success(Summary(Some(""), Some(4.0), Some(""), Some(""), Some(false), Some(1.0), Some(5.0)))
    ensures AcceptAll(Empty(), [Ev(STARTED, 1.0), Ev(FINISHED, 4.0), Ev(FINISHED, 5.0)], 4)
            == Success(Summary(Some(""), Some(4.0), Some(""), Some(""), Some(false), Some(1.0), Some(5.0)))
    ensures AcceptAll(Empty(), [Ev(STARTED, 1.0), Ev(FINISHED, 5.0), Ev(FINISHED, 4.0)], 4)
            == Success(Summary(Some(""), Some(4.0), Some(""), Some(""), Some(false), Some(1.0), Some(5.0)))
  {
    MarkersDiffer();
    ShortRuns(Empty(), Ev(STARTED, 1.0), Ev(STARTED, 2.0), Ev(FINISHED, 5.0), Ev(FINISHED, 5.0), 4);
    ShortRuns(Empty(), Ev(STARTED, 2.0), Ev(STARTED, 1.0), Ev(FINISHED, 5.0), Ev(FINISHED, 5.0), 4);
    ShortRuns(Empty(), Ev(STARTED, 1.0), Ev(FINISHED, 4.0), Ev(FINISHED, 5.0), Ev(FINISHED, 5.0), 4);
    ShortRuns(Empty(), Ev(STARTED, 1.0), Ev(FINISHED, 5.0), Ev(FINISHED, 4.0), Ev(FINISHED, 4.0), 4);
  }

  /** With threshold 4 the comparison is strict: duration 4 does not alert, 5 does. */
  lemma AlertBoundary()
    ensures AcceptAll(Empty(), [Ev(STARTED, 1.0), Ev(FINISHED, 5.0)], 4)
            == Success(Summary(Some(""), Some(4.0), Some(""), Some(""), Some(false), Some(1.0), Some(5.0)))
    ensures AcceptAll(Empty(), [Ev(STARTED, 3.0), Ev(FINISHED, 8.0)], 4)
            == Success(Summary(Some(""), Some(5.0), Some(""), Some(""), Some(true), Some(3.0), Some(8.0)))
  {
    MarkersDiffer();
    ShortRuns(Empty(), Ev(STARTED, 1.0), Ev(FINISHED, 5.0), Ev(FINISHED, 5.0), Ev(FINISHED, 5.0), 4);
    ShortRuns(Empty(), Ev(STARTED, 3.0), Ev(FINISHED, 8.0), Ev(FINISHED, 8.0), Ev(FINISHED, 8.0), 4);
  }

  /**
   * FINISHED 5, FINISHED 8, STARTED 1 keeps FINISHED 5 (no STARTED instant
   * was known when 8 arrived), so the duration is 4 and there is no alert;
   * STARTED 1 first keeps 8, duration 7, alert. Accepting is therefore not
   * order-independent.
   */
  lemma FinishedBeforeStartSticks()
    ensures AcceptAll(Empty(), [Ev(FINISHED, 5.0), Ev(FINISHED, 8.0), Ev(STARTED, 1.0)], 4)
            == Success(Summary(Some(""), Some(4.0), Some(""), Some(""), Some(false), Some(1.0), Some(5.0)))
    ensures AcceptAll(Empty(), [Ev(STARTED, 1.0), Ev(FINISHED, 5.0), Ev(FINISHED, 8.0)], 4)
            == Success(Summary(Some(""), Some(7.0), Some(""), Some(""), Some(true), Some(1.0), Some(8.0)))
  {
    MarkersDiffer();
    ShortRuns(Empty(), Ev(FINISHED, 5.0), Ev(FINISHED, 8.0), Ev(STARTED, 1.0), Ev(STARTED, 1.0), 4);
    ShortRuns(Empty(), Ev(STARTED, 1.0), Ev(FINISHED, 5.0), Ev(FINISHED, 8.0), Ev(FINISHED, 8.0), 4);
  }

  /**
   * Splitting FINISHED 5 | FINISHED 8, STARTED 1 into two partials and
   * combining them keeps FINISHED 8, whereas the sequential run keeps 5:
   * the combiner does not make the result independent of partitioning.
   */
  lemma PartitioningChangesResult()
    ensures var p := AcceptAll(Empty(), [Ev(FINISHED, 5.0)], 4);
            var q := AcceptAll(Empty(), [Ev(FINISHED, 8.0), Ev(STARTED, 1.0)], 4);
      && p.Success? && q.Success?
      && Combine(p.value, q.value, 4)
         == Success(Summary(Some(""), Some(7.0), Some(""), Some(""), Some(true), Some(1.0), Some(8.0)))
    ensures var whole := AcceptAll(Empty(), [Ev(FINISHED, 5.0), Ev(FINISHED, 8.0), Ev(STARTED, 1.0)], 4);
      whole.Success? && whole.value.finished == Some(5.0)
  {
    MarkersDiffer();
    ShortRuns(Empty(), Ev(FINISHED, 5.0), Ev(FINISHED, 5.0), Ev(FINISHED, 5.0), Ev(FINISHED, 5.0), 4);
    ShortRuns(Empty(), Ev(FINISHED, 8.0), Ev(STARTED, 1.0), Ev(STARTED, 1.0), Ev(STARTED, 1.0), 4);
    FinishedBeforeStartSticks();
  }

  /**
   * The combiner is not associative: of three one-event partials FINISHED 5,
   * FINISHED 8 and STARTED 1, grouping the first two keeps FINISHED 5, and
   * grouping the last two keeps FINISHED 8.
   */
  lemma CombineNotAssociative()
    ensures var a := Accept(Empty(), Ev(FINISHED, 5.0), 4);
            var b := Accept(Empty(), Ev(FINISHED, 8.0), 4);
            var c := Accept(Empty(), Ev(STARTED, 1.0), 4);
      && a.Success? && b.Success? && c.Success?
      && var ab := Combine(a.value, b.value, 4);
         var bc := Combine(b.value, c.value, 4);
         && ab.Success? && bc.Success?
         && Combine(ab.value, c.value, 4).Success? && Combine(ab.value, c.value, 4).value.finished == Some(5.0)
         && Combine(a.value, bc.value, 4).Success? && Combine(a.value, bc.value, 4).value.finished == Some(8.0)
  {
    MarkersDiffer();
  }

  /** The combiner is not commutative: the type comes from the first partial that has one. */
  lemma CombineNotCommutative()
    ensures var p := Accept(Empty(), InputEvent(Some("x"), STARTED, Some(1.0), Some("A"), None), 4);
            var q := Accept(Empty(), InputEvent(Some("x"), FINISHED, Some(2.0), Some("B"), None), 4);
      && p.Success? && q.Success?
      && Combine(p.value, q.value, 4).Success? && Combine(p.value, q.value, 4).value.eventType == Some("A")
      && Combine(q.value, p.value, 4).Success? && Combine(q.value, p.value, 4).value.eventType == Some("B")
  {
    MarkersDiffer();
  }

  /** An empty string is a set value: a later non-empty type or host does not replace it. */
  lemma EmptyStringCountsAsSet()
    ensures var first := InputEvent(Some("x"), STARTED, Some(1.0), Some(""), Some(""));
            var second := InputEvent(Some("x"), FINISHED, Some(2.0), Some("B"), Some("h"));
            var r := AcceptAll(Empty(), [first, second], 4);
      r.Success? && r.value.eventType == Some("") && r.value.host == Some("")
  {
    var first := InputEvent(Some("x"), STARTED, Some(1.0), Some(""), Some(""));
    var second := InputEvent(Some("x"), FINISHED, Some(2.0), Some("B"), Some("h"));
    MarkersDiffer();
    ShortRuns(Empty(), first, second, second, second, 4);
  }

  /**
   * The combiner throws for two partials with different ids, and also when
   * the first has an id and the second has none (a null id is not equal to
   * any id).
   */
  lemma CombinerIdConflicts(a: Summary, threshold: int)
    requires a.id.Some?
    ensures Combine(a, Empty(), threshold) == Failure(IllegalArgument(ID_MISMATCH))
    ensures a.id != Some("b") ==> Combine(a, Empty().(id := Some("b")), threshold).Failure?
  {
  }

  /** Accepting an event whose id differs from the kept one throws, whatever the event's state. */
  lemma AcceptIdConflict(s: Summary, e: InputEvent, threshold: int)
    requires s.id.Some? && e.id != s.id
    ensures Accept(s, e, threshold) == Failure(IllegalArgument(ID_MISMATCH))
  {
  }
}
