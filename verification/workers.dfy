/**
  * The two dispatch loops of main.go. `commandHandler` handles every
  * command it receives, logs handler errors and carries on;
  * `queryHandler` answers each query with its handler's result, but on
  * the first error it answers nil and returns, so later queries are
  * never answered.
  */
module Workers {
  import opened Wrappers
  import opened Values
  import opened Errors
  import Command
  import Query

  /**
    * Reference semantics of handling `cmds` in order from state `s`: the
    * final state and, per command, the error `Handle` returned (the ones
    * that are logged).
    */
  function HandleAll<S>(r: Command.Registry<S>, s: S, cmds: seq<Command.Command>): (out: (S, seq<Option<Error>>))
    ensures |out.1| == |cmds|
    decreases |cmds|
  {
    if cmds == [] then (s, [])
    else
      var first := Command.Handle(r, s, cmds[0]);
      var rest := HandleAll(r, first.0, cmds[1..]);
      (rest.0, [first.1] + rest.1)
  }

  /**
    * The `commandHandler` loop. `handled` records the commands passed to
    * `Handle`, `errs` what each call returned, and `wg` the wait-group
    * counter, which `Add(1)` raises and `Done()` lowers around every call.
    */
  method CommandHandler<S>(r: Command.Registry<S>, s0: S, cmds: seq<Command.Command>, wg0: int)
    returns (s: S, errs: seq<Option<Error>>, handled: seq<Command.Command>, wg: int)
    ensures handled == cmds
    ensures (s, errs) == HandleAll(r, s0, cmds)
    ensures wg == wg0
  {
    s, errs, handled, wg := s0, [], [], wg0;
    var i := 0;
    assert cmds[i..] == cmds;
    assert errs + HandleAll(r, s, cmds[i..]).1 == HandleAll(r, s, cmds[i..]).1;
    while i < |cmds|
      invariant 0 <= i <= |cmds|
      invariant handled == cmds[..i]
      invariant wg == wg0
      invariant HandleAll(r, s0, cmds) == (HandleAll(r, s, cmds[i..]).0, errs + HandleAll(r, s, cmds[i..]).1)
    {
      var c := cmds[i];
      wg := wg + 1;
      var result := Command.Handle(r, s, c);
      assert cmds[i..][1..] == cmds[i + 1..];
      ghost var rest := HandleAll(r, result.0, cmds[i + 1..]);
      assert HandleAll(r, s, cmds[i..]) == (rest.0, [result.1] + rest.1);
      assert errs + ([result.1] + rest.1) == (errs + [result.1]) + rest.1;
      s, errs := result.0, errs + [result.1];
      wg := wg - 1;
      handled := handled + [c];
      assert cmds[..i + 1] == cmds[..i] + [c];
      i := i + 1;
    }
    assert cmds[..i] == cmds;
    assert errs + [] == errs;
  }

  /** The loop keeps going after a handler error: every command is handled once. */
  lemma {:induction false} HandleAllRecordsEveryResult<S>(r: Command.Registry<S>, s: S, cmds: seq<Command.Command>, k: int)
    requires 0 <= k < |cmds|
    ensures HandleAll(r, s, cmds).1[k] == Command.Handle(r, HandleAll(r, s, cmds[..k]).0, cmds[k]).1
    decreases k
  {
    if k > 0 {
      var first := Command.Handle(r, s, cmds[0]);
      HandleAllRecordsEveryResult(r, first.0, cmds[1..], k - 1);
      assert cmds[1..][..k - 1] == cmds[..k][1..];
      assert cmds[1..][k - 1] == cmds[k];
    } else {
      assert cmds[..0] == [];
    }
  }

  /** Replies of the query loop, in order, and whether it returned early. */
  datatype Served = Served(replies: seq<Value>, stopped: bool)

  ghost predicate Fails<S>(r: Query.Registry<S>, s: S, q: Query.Query) {
    !Query.Handle(r, s, q).Ok()
  }

  /**
    * The `queryHandler` loop as written: queries before the first failing
    * one get their handler's value; the first failing one gets nil and the
    * loop ends, leaving every later query without an answer.
    */
  function ServeQueries<S>(r: Query.Registry<S>, s: S, qs: seq<Query.Query>): (out: Served)
    ensures |out.replies| <= |qs|
    ensures out.stopped <==> exists k :: 0 <= k < |qs| && Fails(r, s, qs[k])
    ensures !out.stopped ==> |out.replies| == |qs|
    ensures out.stopped ==> |out.replies| > 0
    ensures out.stopped ==> Fails(r, s, qs[|out.replies| - 1]) && out.replies[|out.replies| - 1] == NilV
    ensures forall i :: 0 <= i < |out.replies| && !(out.stopped && i == |out.replies| - 1) ==>
              !Fails(r, s, qs[i]) && out.replies[i] == Query.Handle(r, s, qs[i]).value
    decreases |qs|
  {
    if qs == [] then Served([], false)
    else
      var res := Query.Handle(r, s, qs[0]);
      if !res.Ok() then Served([NilV], true)
      else
        var rest := ServeQueries(r, s, qs[1..]);
        assert forall k :: 1 <= k < |qs| ==> qs[k] == qs[1..][k - 1];
        Served([res.value] + rest.replies, rest.stopped)
  }

  /**
    * The loop as evidently intended: every query is answered, nil for a
    * failing handler and the handler's value otherwise.
    */
  function ServeQueriesFixed<S>(r: Query.Registry<S>, s: S, qs: seq<Query.Query>): (replies: seq<Value>)
    ensures |replies| == |qs|
    ensures forall i :: 0 <= i < |qs| ==>
              replies[i] == (if Fails(r, s, qs[i]) then NilV else Query.Handle(r, s, qs[i]).value)
    decreases |qs|
  {
    if qs == [] then []
    else
      var res := Query.Handle(r, s, qs[0]);
      [if res.Ok() then res.value else NilV] + ServeQueriesFixed(r, s, qs[1..])
  }

  /**
    * The loop as written answers a prefix of what the corrected loop
    * answers; the two agree exactly when every query gets an answer, which
    * is the case when no handler fails.
    */
  lemma AsWrittenIsPrefixOfFixed<S>(r: Query.Registry<S>, s: S, qs: seq<Query.Query>)
    ensures ServeQueries(r, s, qs).replies <= ServeQueriesFixed(r, s, qs)
    ensures ServeQueries(r, s, qs).replies == ServeQueriesFixed(r, s, qs) <==> |ServeQueries(r, s, qs).replies| == |qs|
    ensures !ServeQueries(r, s, qs).stopped ==> ServeQueries(r, s, qs).replies == ServeQueriesFixed(r, s, qs)
  {
  }

  /**
    * Two queries for unregistered names: as written only the first is
    * answered and the second caller waits forever; the corrected loop
    * answers both.
    */
  lemma QueryLoopStopsAtFirstError<S>(s: S)
    ensures var qs := [Query.New("bar", map[]), Query.New("baz", map[])];
            && ServeQueries(map[], s, qs) == Served([NilV], true)
            && ServeQueriesFixed(map[], s, qs) == [NilV, NilV]
  {
  }
}
