/**
  * The wiring of main.go: a counter of handled commands, the `increment`
  * command that raises it, the `handled_requests` query that reads it,
  * and the two registries built at start-up. The counter's read/write
  * mutex is left out: every access here is a single step.
  */
module Main {
  import opened Wrappers
  import opened Values
  import opened Errors
  import LocalArgument
  import VendorArgument
  import Registration
  import Command
  import Query
  import CommandQueue
  import Workers

  /** The `handled` struct: the number of commands handled so far. */
  datatype Handled = Handled(n: int64)

  /** `h.n++`: one more, wrapping to the minimum past Go's largest int. */
  function Increment(h: Handled): (h': Handled)
    ensures h.n as int < MaxInt64 ==> h'.n as int == h.n as int + 1
    ensures h.n as int == MaxInt64 ==> h'.n as int == MinInt64
  {
    Handled(Wrap(h.n as int + 1))
  }

  /** The `increment` command handler: bumps the counter and never fails. */
  function IncrementCommand(h: Handled, args: LocalArgument.Arguments): (r: (Handled, Option<Error>))
    ensures r.1 == None && r.0 == Increment(h)
  {
    (Increment(h), None)
  }

  /** The `handled_requests` query handler: the current count, never failing. */
  function HandledRequestsQuery(h: Handled, args: VendorArgument.Arguments): (r: Ret<Value>)
    ensures r == Ret(IntV(h.n), None)
  {
    Ret(IntV(h.n), None)
  }

  /** What `main` builds before it starts serving. */
  datatype Wiring = Wiring(commands: Command.Registry<Handled>, queries: Query.Registry<Handled>, counter: Handled)

  /**
    * Builds the command registry with `increment` and the query registry
    * with `handled_requests`, aborting on the first registry error. Both
    * succeed, each holding exactly its one name, and the counter starts at 0.
    */
  function Boot(): (r: Result<Wiring, Error>)
    ensures r.Success?
    ensures r.value.commands.Keys == {"increment"} && r.value.commands["increment"] == IncrementCommand
    ensures r.value.queries.Keys == {"handled_requests"} && r.value.queries["handled_requests"] == HandledRequestsQuery
    ensures r.value.counter == Handled(0)
  {
    var ce := [Command.NewRegisteredCommand("increment", IncrementCommand)];
    var qe := [Query.NewRegisteredQuery("handled_requests", HandledRequestsQuery)];
    Registration.NamesSingleton(ce[0]);
    Registration.NamesSingleton(qe[0]);
    match (Command.NewRegistry(ce), Query.NewRegistry(qe))
    case (Failure(e), _) => Failure(e)
    case (_, Failure(e)) => Failure(e)
    case (Success(commands), Success(queries)) => Success(Wiring(commands, queries, Handled(0)))
  }

  /** Reading the counter after an `increment` command sees it one higher. */
  lemma IncrementThenRead(h: Handled, cargs: LocalArgument.Arguments, qargs: VendorArgument.Arguments)
    requires h.n as int < MaxInt64
    ensures IncrementCommand(h, cargs).1 == None
    ensures HandledRequestsQuery(IncrementCommand(h, cargs).0, qargs) == Ret(IntV((h.n as int + 1) as int64), None)
  {
  }

  /** Handling `k` increment commands raises the counter by `k`, with no error logged. */
  lemma {:induction false} IncrementsCount(h: Handled, cmds: seq<Command.Command>)
    requires forall c | c in cmds :: c.name == "increment"
    requires h.n as int + |cmds| <= MaxInt64
    ensures Workers.HandleAll(Boot().value.commands, h, cmds).0.n as int == h.n as int + |cmds|
    ensures forall e | e in Workers.HandleAll(Boot().value.commands, h, cmds).1 :: e == None
    decreases |cmds|
  {
    var r := Boot().value.commands;
    if cmds != [] {
      assert cmds[0] in cmds;
      assert Command.Handle(r, h, cmds[0]) == (Increment(h), None);
      assert forall c | c in cmds[1..] :: c in cmds;
      IncrementsCount(Increment(h), cmds[1..]);
    }
  }

  /**
    * End to end: whatever mix of start, submissions of `increment` and
    * cancels the queue receives from a fresh start, handling what it
    * forwarded leaves a count equal to the submissions minus those still
    * buffered, and `handled_requests` answers with that count.
    */
  lemma CountMatchesForwarded(events: seq<CommandQueue.Event<Command.Command>>)
    requires forall c | c in CommandQueue.Submitted(events) :: c.name == "increment"
    requires |events| <= MaxInt64
    ensures var w := Boot().value;
            var run := CommandQueue.Run(CommandQueue.Init(), events);
            var h := Workers.HandleAll(w.commands, w.counter, run.1).0;
            && h.n as int == |CommandQueue.Submitted(events)| - |run.0.buffer|
            && Workers.ServeQueries(w.queries, h, [Query.New("handled_requests", map[])]) == Workers.Served([IntV(h.n)], false)
  {
    var w := Boot().value;
    var run := CommandQueue.Run(CommandQueue.Init(), events);
    CommandQueue.ConservationFromInit(events);
    assert forall c | c in run.1 :: c in run.1 + run.0.buffer;
    IncrementsCount(w.counter, run.1);
    var h := Workers.HandleAll(w.commands, w.counter, run.1).0;
    var q := Query.New("handled_requests", map[]);
    assert Query.Handle(w.queries, h, q) == Ret(IntV(h.n), None);
    assert [q][1..] == [];
  }

  /**
    * Five `increment` commands submitted while the queue is paused, then
    * `start`: all five are handled and `handled_requests` answers 5. This
    * is a property of the queue and the two worker loops on their own: in
    * `main` itself `start` is sent before the HTTP front end exists, so no
    * command can reach the queue while it is paused.
    */
  lemma FiveIncrementsThenQuery()
    ensures var inc := Command.New("increment", map[]);
            var events := CommandQueue.Submits([inc, inc, inc, inc, inc]) + [CommandQueue.Start];
            var w := Boot().value;
            var run := CommandQueue.Run(CommandQueue.Init(), events);
            && run == (CommandQueue.State(true, []), [inc, inc, inc, inc, inc])
            && Workers.ServeQueries(w.queries, Workers.HandleAll(w.commands, w.counter, run.1).0, [Query.New("handled_requests", map[])])
               == Workers.Served([IntV(5)], false)
  {
    var inc := Command.New("increment", map[]);
    var items := [inc, inc, inc, inc, inc];
    var events := CommandQueue.Submits(items) + [CommandQueue.Start];
    assert CommandQueue.Run(CommandQueue.Init(), events) == (CommandQueue.State(true, []), items) by {
      CommandQueue.FlushInSubmissionOrder(CommandQueue.Init(), items);
      assert CommandQueue.Init<Command.Command>().buffer + items == items;
    }
    var w := Boot().value;
    var h := Workers.HandleAll(w.commands, w.counter, items).0;
    assert h == Handled(5) by {
      IncrementsCount(w.counter, items);
    }
    var q := Query.New("handled_requests", map[]);
    assert Workers.ServeQueries(w.queries, h, [q]) == Workers.Served([IntV(5)], false) by {
      assert Query.Handle(w.queries, h, q) == Ret(IntV(5), None);
      assert [q][1..] == [];
    }

  }
}
