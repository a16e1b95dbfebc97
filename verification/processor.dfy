/**
 * `CsaEventProcessor`'s core: map the input lines to events, then group the
 * events by id, feeding each id's events to its own `OutputEvent` in input
 * order, and yield one accumulator per distinct id.
 */
module Processor {
  import opened Wrappers
  import opened InputEvents
  import opened Summaries
  import opened Accumulation
  import opened OutputEvents

  /**
   * `getInputEventStream`: one event per line, in line order. The JSON
   * decoder is a parameter.
   */
  function GetInputEventStream(lines: seq<string>, decode: string -> InputEvent): (events: seq<InputEvent>)
    ensures |events| == |lines|
    ensures forall i :: 0 <= i < |lines| ==> events[i] == decode(lines[i])
  {
    if lines == [] then [] else [decode(lines[0])] + GetInputEventStream(lines[1..], decode)
  }

  /** Every event has a (non-null) id to be grouped under. */
  predicate Keyed(events: seq<InputEvent>) {
    forall i :: 0 <= i < |events| ==> events[i].id.Some?
  }

  /** The distinct ids of the events. */
  function Keys(events: seq<InputEvent>): set<string>
    requires Keyed(events)
  {
    set i | 0 <= i < |events| :: events[i].id.value
  }

  /** The events carrying id `k`, in input order. */
  function EventsWithId(events: seq<InputEvent>, k: string): (r: seq<InputEvent>)
    ensures AllWithId(r, k)
    ensures |r| <= |events|
    decreases |events|
  {
    if events == [] then []
    else
      var e := events[|events| - 1];
      EventsWithId(events[..|events| - 1], k) + (if e.id == Some(k) then [e] else [])
  }

  /**
   * The accumulator id `k` ends up with: its events, in input order,
   * accepted into a fresh `OutputEvent`; this never throws, and the
   * accumulator holds `k` as soon as it has seen one event.
   */
  function SummaryFor(events: seq<InputEvent>, k: string, threshold: int): (r: Summary)
    ensures AcceptAll(Empty(), EventsWithId(events, k), threshold) == Success(r)
    ensures EventsWithId(events, k) != [] ==> r.id == Some(k)
  {
    SameIdNeverFails(Empty(), EventsWithId(events, k), k, threshold);
    AcceptAll(Empty(), EventsWithId(events, k), threshold).value
  }

  /** The grouping's result as a value: one summary per distinct id. */
  function GroupSpec(events: seq<InputEvent>, threshold: int): (groups: map<string, Summary>)
    requires Keyed(events)
    ensures groups.Keys == Keys(events) && |groups| == |Keys(events)|
    ensures forall k :: k in groups ==> groups[k] == SummaryFor(events, k, threshold) && groups[k].id == Some(k)
  {
    forall k | k in Keys(events) ensures EventsWithId(events, k) != [] {
      KeyHasEvents(events, k);
    }
    map k | k in Keys(events) :: SummaryFor(events, k, threshold)
  }

  /** Every id that occurs has at least one event. */
  lemma {:induction false} KeyHasEvents(events: seq<InputEvent>, k: string)
    requires Keyed(events) && k in Keys(events)
    ensures EventsWithId(events, k) != []
  {
    var n := |events| - 1;
    if events[n].id != Some(k) {
      var i :| 0 <= i < |events| && events[i].id.value == k;
      assert events[..n][i] == events[i];
      KeyHasEvents(events[..n], k);
    }
  }

  /** An id that does not occur has no events, so its summary is the fresh one. */
  lemma {:induction false} AbsentKeyHasNoEvents(events: seq<InputEvent>, k: string)
    requires forall i :: 0 <= i < |events| ==> events[i].id != Some(k)
    ensures EventsWithId(events, k) == []
  {
    if events != [] {
      var n := |events| - 1;
      assert forall i :: 0 <= i < n ==> events[..n][i] == events[i];
      AbsentKeyHasNoEvents(events[..n], k);
    }
  }

  /**
   * The selection holds exactly the events carrying `k`: every such event
   * of the input is in it, everything in it comes from the input, and
   * events of other ids are not.
   */
  lemma {:induction false} EventsWithIdMembers(events: seq<InputEvent>, k: string)
    ensures forall i :: 0 <= i < |events| && events[i].id == Some(k) ==> events[i] in EventsWithId(events, k)
    ensures forall x :: x in EventsWithId(events, k) ==> x in events && x.id == Some(k)
  {
    if events != [] {
      var n := |events| - 1;
      EventsWithIdMembers(events[..n], k);
      assert forall i :: 0 <= i < n ==> events[..n][i] == events[i];
      assert forall x :: x in events[..n] ==> x in events;
    }
  }

  /** Selecting by id distributes over concatenation. */
  lemma {:induction false} EventsWithIdConcat(xs: seq<InputEvent>, ys: seq<InputEvent>, k: string)
    ensures EventsWithId(xs + ys, k) == EventsWithId(xs, k) + EventsWithId(ys, k)
  {
    if ys == [] {
      assert xs + ys == xs;
    } else {
      var n := |ys| - 1;
      assert (xs + ys)[..|xs + ys| - 1] == xs + ys[..n];
      EventsWithIdConcat(xs, ys[..n], k);
    }
  }

  /**
   * Events of other ids have no effect on id `k`'s summary, wherever in
   * the input they occur.
   */
  lemma OtherIdsIrrelevant(xs: seq<InputEvent>, e: InputEvent, ys: seq<InputEvent>, k: string, threshold: int)
    requires e.id != Some(k)
    ensures SummaryFor(xs + [e] + ys, k, threshold) == SummaryFor(xs + ys, k, threshold)
  {
    EventsWithIdConcat(xs + [e], ys, k);
    EventsWithIdConcat(xs, [e], k);
    EventsWithIdConcat(xs, ys, k);
    assert [e][..0] == [];
    assert EventsWithId([e], k) == [];
    assert EventsWithId(xs + [e] + ys, k) == EventsWithId(xs + ys, k);
  }

  /** One more input event adds its id to the set of ids. */
  lemma KeysStep(events: seq<InputEvent>, i: nat)
    requires i < |events| && Keyed(events)
    ensures Keyed(events[..i]) && Keyed(events[..i + 1])
    ensures Keys(events[..i + 1]) == Keys(events[..i]) + {events[i].id.value}
  {
    var pre, next := events[..i], events[..i + 1];
    assert forall j :: 0 <= j < i ==> pre[j] == events[j] && next[j] == events[j];
    var k := events[i].id.value;
    forall x | x in Keys(next) ensures x in Keys(pre) + {k} {
      var j :| 0 <= j < i + 1 && next[j].id.value == x;
      if j < i { assert pre[j].id.value == x; }
    }
    forall x | x in Keys(pre) + {k} ensures x in Keys(next) {
      if x == k { assert next[i].id.value == x; }
      else { var j :| 0 <= j < i && pre[j].id.value == x; assert next[j].id.value == x; }
    }
  }

  /**
   * One more input event is accepted into its own id's summary (a fresh
   * one if the id is new) and leaves every other id's summary as it was.
   */
  lemma SummaryStep(events: seq<InputEvent>, i: nat, threshold: int)
    requires i < |events| && Keyed(events)
    ensures forall k :: k != events[i].id.value ==>
      SummaryFor(events[..i + 1], k, threshold) == SummaryFor(events[..i], k, threshold)
    ensures Accept(SummaryFor(events[..i], events[i].id.value, threshold), events[i], threshold)
            == Success(SummaryFor(events[..i + 1], events[i].id.value, threshold))
    ensures Keyed(events[..i]) && events[i].id.value !in Keys(events[..i]) ==>
      SummaryFor(events[..i], events[i].id.value, threshold) == Empty()
  {
    var pre, next := events[..i], events[..i + 1];
    assert next[..i] == pre;
    assert next == pre + [events[i]];
    var k := events[i].id.value;
    forall x | x != k
      ensures SummaryFor(next, x, threshold) == SummaryFor(pre, x, threshold)
    {
      assert EventsWithId(next, x) == EventsWithId(pre, x);
    }
    assert EventsWithId(next, k) == EventsWithId(pre, k) + [events[i]];
    assert (EventsWithId(pre, k) + [events[i]])[..|EventsWithId(pre, k)|] == EventsWithId(pre, k);
    if Keyed(pre) && k !in Keys(pre) {
      forall j | 0 <= j < i ensures pre[j].id != Some(k) {
        assert pre[j].id.value in Keys(pre);
      }
      AbsentKeyHasNoEvents(pre, k);
    }
  }

  /** The accumulators of distinct ids are distinct objects. */
  ghost predicate Distinct(groups: map<string, OutputEvent>) {
    forall k, k' :: k in groups && k' in groups && k != k' ==> groups[k] != groups[k']
  }

  /** Each id's accumulator holds the summary of that id's events so far. */
  ghost predicate Summarises(groups: map<string, OutputEvent>, events: seq<InputEvent>, threshold: int)
    reads set k | k in groups :: groups[k]
  {
    forall k :: k in groups ==> groups[k].State() == SummaryFor(events, k, threshold)
  }

  /**
   * The collector's supplier step: the accumulator already kept for `k`,
   * or a fresh `OutputEvent` added to the map under `k`.
   */
  method AccumulatorFor(groups: map<string, OutputEvent>, k: string) returns (acc: OutputEvent, next: map<string, OutputEvent>)
    requires Distinct(groups)
    ensures k in groups ==> acc == groups[k] && next == groups
    ensures k !in groups ==> fresh(acc) && acc.State() == Empty() && next == groups[k := acc]
    ensures Distinct(next) && k in next && next[k] == acc
  {
    if k in groups {
      acc := groups[k];
      next := groups;
    } else {
      acc := new OutputEvent();
      next := groups[k := acc];
    }
  }

  /**
   * One step of the collector for `events[i]`: take the accumulator of its
   * id and accept the event into it; the id conflict is never thrown.
   */
  method AccumulateOne(groups: map<string, OutputEvent>, events: seq<InputEvent>, i: nat, threshold: int)
    returns (next: map<string, OutputEvent>)
    requires i < |events| && Keyed(events)
    requires groups.Keys == Keys(events[..i]) && Distinct(groups)
    requires Summarises(groups, events[..i], threshold)
    modifies set k | k in groups :: groups[k]
    ensures next.Keys == Keys(events[..i + 1]) && Distinct(next)
    ensures forall k :: k in next ==> (k in groups && next[k] == groups[k]) || (k !in groups && fresh(next[k]))
    ensures Summarises(next, events[..i + 1], threshold)
  {
    var e := events[i];
    var k := e.id.value;
    KeysStep(events, i);
    SummaryStep(events, i, threshold);
    var acc;
    acc, next := AccumulatorFor(groups, k);
    assert next.Keys == Keys(events[..i + 1]);
    assert acc.State() == SummaryFor(events[..i], k, threshold);
    label BeforeAccept:
    var r := acc.Accept(e, threshold);
    assert r.Success?;
    forall x | x in next
      ensures next[x].State() == SummaryFor(events[..i + 1], x, threshold)
    {
      if x != k {
        assert next[x] != acc;
        assert next[x].State() == old@BeforeAccept(next[x].State());
      }
    }
  }

  /**
   * `getOutputEventsStream` on the sequential path: for each event, take
   * the accumulator of its id (creating a fresh one the first time the id
   * occurs) and accept the event into it. The result holds one distinct,
   * newly created accumulator per distinct id, each holding the summary of
   * that id's events; no accumulator ever throws the id conflict.
   */
  method GetOutputEventsStream(events: seq<InputEvent>, threshold: int) returns (groups: map<string, OutputEvent>)
    requires Keyed(events)
    ensures groups.Keys == Keys(events)
    ensures forall k :: k in groups ==> fresh(groups[k])
    ensures Distinct(groups)
    ensures forall k :: k in groups ==> groups[k].State() == GroupSpec(events, threshold)[k]
  {
    groups := map[];
    var i := 0;
    assert events[..0] == [];
    while i < |events|
      invariant 0 <= i <= |events|
      invariant groups.Keys == Keys(events[..i])
      invariant forall k :: k in groups ==> fresh(groups[k])
      invariant Distinct(groups)
      invariant Summarises(groups, events[..i], threshold)
    {
      groups := AccumulateOne(groups, events, i, threshold);
      i := i + 1;
    }
    assert events[..i] == events;
  }

  // The six-event input of the processor's tests, in the order of the
  // decoder's test vectors, with the default threshold of 4.

  const A: string := "scsmbstgra"
  const B: string := "scsmbstgrb"
  const C: string := "scsmbstgrc"

  function ScenarioEvents(): seq<InputEvent> {
    [ InputEvent(Some(A), STARTED, Some(1491377495212.0), Some("APPLICATION_LOG"), Some("12345")),
      InputEvent(Some(B), STARTED, Some(1491377495213.0), None, None),
      InputEvent(Some(C), FINISHED, Some(1491377495218.0), None, None),
      InputEvent(Some(A), FINISHED, Some(1491377495217.0), Some("APPLICATION_LOG"), Some("12345")),
      InputEvent(Some(C), STARTED, Some(1491377495210.0), None, None),
      InputEvent(Some(B), FINISHED, Some(1491377495216.0), None, None) ]
  }

  /** Selecting the id of positions `i < j` from six events in which no other position carries it. */
  lemma SelectTwoOfSix(events: seq<InputEvent>, k: string, i: nat, j: nat)
    requires |events| == 6 && i < j < 6
    requires forall m :: 0 <= m < 6 ==> (events[m].id == Some(k) <==> m == i || m == j)
    ensures EventsWithId(events, k) == [events[i], events[j]]
  {
    assert events[..0] == [];
    var n := 1;
    while n <= 6
      invariant 1 <= n <= 7
      invariant EventsWithId(events[..n - 1], k)
                == (if i < n - 1 then [events[i]] else []) + (if j < n - 1 then [events[j]] else [])
    {
      assert events[..n][..n - 1] == events[..n - 1];
      n := n + 1;
    }
    assert events[..6] == events;
  }

  /** Three ids with two events each, interleaved as in the scenario. */
  lemma GroupSixEvents(events: seq<InputEvent>, a: string, b: string, c: string)
    requires |events| == 6 && a != b && a != c && b != c
    requires events[0].id == events[3].id == Some(a)
    requires events[1].id == events[5].id == Some(b)
    requires events[2].id == events[4].id == Some(c)
    ensures Keyed(events)
    ensures Keys(events) == {a, b, c} && |Keys(events)| == 3
    ensures EventsWithId(events, a) == [events[0], events[3]]
    ensures EventsWithId(events, b) == [events[1], events[5]]
    ensures EventsWithId(events, c) == [events[2], events[4]]
  {
    assert forall i :: 0 <= i < 6 ==> events[i].id.value in {a, b, c};
    assert events[0].id.value == a && events[1].id.value == b && events[2].id.value == c;
    assert |{a, b, c}| == 3 by {
      assert {a, b, c} == {a, b} + {c};
      assert |{a, b}| == 2;
    }
    SelectTwoOfSix(events, a, 0, 3);
    SelectTwoOfSix(events, b, 1, 5);
    SelectTwoOfSix(events, c, 2, 4);
  }

  /** The run of a STARTED event followed by a FINISHED one of the same id, with no type or host on the second. */
  lemma StartThenFinish(st: InputEvent, fin: InputEvent, threshold: int)
    requires st.id.Some? && fin.id == st.id
    requires st.state == STARTED && fin.state == FINISHED
    requires st.timestamp.Some? && fin.timestamp.Some?
    ensures var r := AcceptAll(Empty(), [st, fin], threshold);
      && r.Success?
      && r.value.duration == Some(fin.timestamp.value - st.timestamp.value)
      && r.value.alert == Some(fin.timestamp.value - st.timestamp.value > threshold as real)
      && r.value.eventType == FirstSet(st.eventType, fin.eventType)
      && r.value.host == FirstSet(st.host, fin.host)
  {
    MarkersDiffer();
    ShortRuns(Empty(), st, fin, fin, fin, threshold);
  }

  /** The same with the FINISHED event first. */
  lemma FinishThenStart(fin: InputEvent, st: InputEvent, threshold: int)
    requires fin.id.Some? && st.id == fin.id
    requires st.state == STARTED && fin.state == FINISHED
    requires st.timestamp.Some? && fin.timestamp.Some?
    ensures var r := AcceptAll(Empty(), [fin, st], threshold);
      && r.Success?
      && r.value.duration == Some(fin.timestamp.value - st.timestamp.value)
      && r.value.alert == Some(fin.timestamp.value - st.timestamp.value > threshold as real)
      && r.value.eventType == FirstSet(fin.eventType, st.eventType)
      && r.value.host == FirstSet(fin.host, st.host)
  {
    MarkersDiffer();
    ShortRuns(Empty(), fin, st, st, st, threshold);
  }

  /**
   * Six events over three ids give three summaries: durations 5, 3 and 8,
   * alerts true, false and true; only the first id carries a type and host.
   */
  lemma ProcessorScenario()
    ensures Keyed(ScenarioEvents())
    ensures var g := GroupSpec(ScenarioEvents(), 4);
      && g.Keys == {A, B, C} && |g| == 3
      && g[A].duration == Some(5.0) && g[A].alert == Some(true)
      && g[A].eventType == Some("APPLICATION_LOG") && g[A].host == Some("12345")
      && g[B].duration == Some(3.0) && g[B].alert == Some(false)
      && g[B].eventType == None && g[B].host == None
      && g[C].duration == Some(8.0) && g[C].alert == Some(true)
      && g[C].eventType == None && g[C].host == None
  {
    var ev := ScenarioEvents();
    assert A != B && A != C && B != C by {
      assert A[9] != B[9] && A[9] != C[9] && B[9] != C[9];
    }
    GroupSixEvents(ev, A, B, C);
    StartThenFinish(ev[0], ev[3], 4);
    StartThenFinish(ev[1], ev[5], 4);
    FinishThenStart(ev[2], ev[4], 4);
  }
}
