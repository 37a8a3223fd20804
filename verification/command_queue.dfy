/**
  * The `commandQueue` worker of main.go as a state machine. It starts
  * paused, buffering every submitted item; `Start` flushes the buffer in
  * order and switches to pass-through; cancelling the context pauses it
  * again. Channel traffic becomes an event sequence in and a sequence of
  * forwarded items out.
  */
module CommandQueue {

  datatype Event<T> = Start | Submit(item: T) | Cancel

  /** `processing` is false while buffering; `buffer` holds the items not yet forwarded. */
  datatype State<T> = State(processing: bool, buffer: seq<T>)

  function Init<T>(): (s: State<T>) {
    State(false, [])
  }

  /** A running queue never holds buffered items. */
  ghost predicate Valid<T>(s: State<T>) {
    s.processing ==> s.buffer == []
  }

  /** The new state and the items handed on, in order, by one event. */
  function Step<T>(s: State<T>, e: Event<T>): (r: (State<T>, seq<T>))
    ensures e.Start? ==> r.0 == State(true, []) && r.1 == s.buffer
    ensures e.Submit? && s.processing ==> r.0 == s && r.1 == [e.item]
    ensures e.Submit? && !s.processing ==> r.0 == State(false, s.buffer + [e.item]) && r.1 == []
    ensures e.Cancel? ==> r.0 == State(false, s.buffer) && r.1 == []
    ensures Valid(s) ==> Valid(r.0)
  {
    match e
    case Start => (State(true, []), s.buffer)
    case Submit(c) => if s.processing then (s, [c]) else (State(false, s.buffer + [c]), [])
    case Cancel => (s.(processing := false), [])
  }

  /** Feeds the events to the queue one by one, concatenating what each forwards. */
  function Run<T>(s: State<T>, events: seq<Event<T>>): (r: (State<T>, seq<T>))
    ensures Valid(s) ==> Valid(r.0)
    decreases |events|
  {
    if events == [] then (s, [])
    else
      var first := Step(s, events[0]);
      var rest := Run(first.0, events[1..]);
      (rest.0, first.1 + rest.1)
  }

  /** The item one event submits, if it is a submission. */
  function SubmittedBy<T>(e: Event<T>): (items: seq<T>) {
    if e.Submit? then [e.item] else []
  }

  /** The items submitted by an event sequence, in submission order. */
  function Submitted<T>(events: seq<Event<T>>): (items: seq<T>)
    ensures |items| <= |events|
  {
    if events == [] then [] else SubmittedBy(events[0]) + Submitted(events[1..])
  }

  /** The events that submit `items` one after the other. */
  function Submits<T>(items: seq<T>): (events: seq<Event<T>>)
    ensures |events| == |items|
    ensures forall e :: e in events ==> e.Submit?
  {
    if items == [] then [] else [Submit(items[0])] + Submits(items[1..])
  }

  /** Unfolds `Run` by one event. */
  lemma RunCons<T>(s: State<T>, events: seq<Event<T>>)
    requires events != []
    ensures var first := Step(s, events[0]);
            Run(s, events) == (Run(first.0, events[1..]).0, first.1 + Run(first.0, events[1..]).1)
  {
  }

  /** Starting while running and cancelling while paused change nothing. */
  lemma RedundantEventsAreNoOps<T>(s: State<T>)
    requires Valid(s)
    ensures s.processing ==> Step(s, Start) == (s, [])
    ensures !s.processing ==> Step(s, Cancel) == (s, [])
  {
  }

  /** One event conserves forwarded-then-buffered items. */
  lemma StepConserves<T>(s: State<T>, e: Event<T>)
    requires Valid(s)
    ensures Step(s, e).1 + Step(s, e).0.buffer == s.buffer + SubmittedBy(e)
  {
  }

  /**
    * Conservation: what was forwarded followed by what is still buffered is
    * exactly what was buffered before plus what was submitted since, with
    * no item lost, duplicated or reordered.
    */
  lemma {:induction false} Conservation<T>(s: State<T>, events: seq<Event<T>>)
    requires Valid(s)
    ensures Run(s, events).1 + Run(s, events).0.buffer == s.buffer + Submitted(events)
    decreases |events|
  {
    if events != [] {
      var first := Step(s, events[0]);
      var rest := Run(first.0, events[1..]);
      Conservation(first.0, events[1..]);
      StepConserves(s, events[0]);
      calc {
        Run(s, events).1 + Run(s, events).0.buffer;
        (first.1 + rest.1) + rest.0.buffer;
        first.1 + (rest.1 + rest.0.buffer);
        first.1 + (first.0.buffer + Submitted(events[1..]));
        (first.1 + first.0.buffer) + Submitted(events[1..]);
      }
    }
  }

  /** From the initial state, forwarded items then buffered items are exactly the submissions. */
  lemma ConservationFromInit<T>(events: seq<Event<T>>)
    ensures Run(Init(), events).1 + Run(Init(), events).0.buffer == Submitted(events)
  {
    Conservation(Init<T>(), events);
  }

  /** Running two event sequences one after the other is running their concatenation. */
  lemma {:induction false} RunAppend<T>(s: State<T>, a: seq<Event<T>>, b: seq<Event<T>>)
    ensures Run(s, a + b).0 == Run(Run(s, a).0, b).0
    ensures Run(s, a + b).1 == Run(s, a).1 + Run(Run(s, a).0, b).1
    decreases |a|
  {
    if a == [] {
      assert a + b == b;
    } else {
      assert (a + b)[0] == a[0];
      assert (a + b)[1..] == a[1..] + b;
      var s1 := Step(s, a[0]).0;
      RunAppend(s1, a[1..], b);
    }
  }

  /** While paused, submissions are appended to the buffer and nothing is forwarded. */
  lemma {:induction false} PausedSubmissionsBuffer<T>(s: State<T>, items: seq<T>)
    requires !s.processing
    ensures Run(s, Submits(items)) == (State(false, s.buffer + items), [])
    decreases |items|
  {
    var events := Submits(items);
    if items == [] {
      assert s.buffer + items == s.buffer;
    } else {
      var s1 := State(false, s.buffer + [items[0]]);
      assert events == [Submit(items[0])] + Submits(items[1..]);
      assert events[0] == Submit(items[0]);
      assert events[1..] == Submits(items[1..]);
      RunCons(s, events);
      assert Step(s, events[0]) == (s1, []);
      PausedSubmissionsBuffer(s1, items[1..]);
      assert Run(s, events).1 == [];
      assert s1.buffer + items[1..] == s.buffer + items by {
        assert items == [items[0]] + items[1..];
      }
    }
  }

  /** While running, submissions pass straight through and the buffer stays empty. */
  lemma {:induction false} RunningSubmissionsPassThrough<T>(s: State<T>, items: seq<T>)
    requires s.processing && Valid(s)
    ensures Run(s, Submits(items)) == (s, items)
    decreases |items|
  {
    if items != [] {
      RunningSubmissionsPassThrough(s, items[1..]);
      assert [items[0]] + items[1..] == items;
    }
  }

  /**
    * Items submitted while paused are forwarded on the next `Start` in
    * submission order, after which the queue runs with an empty buffer.
    */
  lemma FlushInSubmissionOrder<T>(s: State<T>, items: seq<T>)
    requires !s.processing
    ensures Run(s, Submits(items) + [Start]) == (State(true, []), s.buffer + items)
  {
    var start: seq<Event<T>> := [Start];
    RunAppend(s, Submits(items), start);
    PausedSubmissionsBuffer(s, items);
    var paused := State(false, s.buffer + items);
    RunCons(paused, start);
    assert start[1..] == [];
    assert Run(paused, start) == (State(true, []), s.buffer + items + []);
    assert Run(s, Submits(items) + start).1 == [] + (s.buffer + items + []);
    assert [] + (s.buffer + items + []) == s.buffer + items;
  }

  /** After a cancel, nothing submitted is forwarded until the next `Start`. */
  lemma CancelStopsPassThrough<T>(s: State<T>, items: seq<T>)
    ensures Run(s, [Cancel] + Submits(items)) == (State(false, s.buffer + items), [])
  {
    var cancel: seq<Event<T>> := [Cancel];
    RunAppend(s, cancel, Submits(items));
    RunCons(s, cancel);
    assert cancel[1..] == [];
    PausedSubmissionsBuffer(State(false, s.buffer), items);
  }
}
