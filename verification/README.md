# graceful-restart: command/query bus and work queue, in Dafny

This project models the request-processing core of the `graceful-restart`
service: the CQRS bus it dispatches through, and the buffering work queue
and worker loops wired up in `main.go`.

- **Arguments** (`VendorArgument`, `LocalArgument`). An `Argument` wraps one
  dynamically typed `Value` (`NilV | IntV | StrV | OtherV`). The typed
  accessors `Int` and `String` succeed only when the stored value has the
  matching type; otherwise they return the zero value and a type error.
  `Arguments` is a map from names to arguments. The vendored package adds
  `New`, `GetInt` and `GetString`, and its `Get` returns the zero `Argument`
  on a missing name. The repository's own package returns nil instead. The
  two are kept as separate modules, as in the source.
- **Registries** (`Registration`, `Command`, `Query`). A registry is built
  from a list of named handlers. Building fails with the first name that
  repeats. `Handle` reports an unknown name as not registered and otherwise
  returns exactly what the registered handler returns.
- **Queries** carry a one-shot reply slot. `Respond` may fill it once, and a
  reader receives exactly the response sent.
- **Work queue** (`CommandQueue`). This is the `commandQueue` goroutine as a
  pure state machine `Step(state, event) -> (state, forwarded)`, with a fold
  `Run` over event sequences. While paused it buffers submissions. `Start`
  flushes the buffer in order and switches to pass-through. A context
  cancel pauses it again. The central lemma is conservation: the items
  forwarded, followed by the buffer, equal the items submitted.
- **Workers** (`Workers`). `commandHandler` handles each command once, in
  order. It logs errors and carries on, and the wait-group counter returns
  to its prior value after each command. `queryHandler` answers each query
  with its handler's value, but on the first error it answers nil and
  returns.
- **Main** (`Main`). This covers the `handled` counter, the `increment`
  command, the `handled_requests` query, the start-up wiring, and
  end-to-end lemmas that combine the queue, the command loop and the
  query loop.

Modelling conventions:
- Go's `int` is `Values.int64`, which assumes a 64-bit platform. Its
  overflow wraps explicitly (`Values.Wrap`).
- A Go pair return `(value, error)` is `Errors.Ret`.
- Each `fmt.Errorf` message becomes an `Errors.Error` constructor carrying
  the offending name or value.
- A Go handler is a closure over shared state. Here it takes the state
  `S` as a parameter:
  - command handlers return the new state and an optional error;
  - query handlers read the state and return a `Ret<Value>`.

Facts about the code that shape the model:
- The counter query is `handled_requests` (main.go:41).
- Only commands pass through a buffering queue; queries go straight to
  `queryHandler` (main.go:59-60).
- The query worker stops after the first failing query. It is modelled as
  written, and a corrected loop sits next to it (see Findings).
- A second `Respond` panics (send on a closed channel). So it is a
  precondition, not an ignored call.
- `cqrs/query/query.go`, which `main.go` compiles against, is not part of
  this model. The vendored `query.go` stands in for it.

## Model

| member | source | states |
|---|---|---|
| `VendorArgument.Int` | vendor/github.com/rogerclotet/cqrs/argument/argument.go:16-23 | succeeds exactly when the stored value is an int and then returns it; otherwise returns 0 and a not-an-int error |
| `VendorArgument.String` | vendor/github.com/rogerclotet/cqrs/argument/argument.go:26-33 | succeeds exactly when the stored value is a string and then returns it; otherwise returns "" and a not-a-string error |
| `VendorArgument.Get` | vendor/github.com/rogerclotet/cqrs/argument/argument.go:39-46 | a present name yields the stored argument unchanged; a missing name yields the zero argument and an argument-not-found error |
| `VendorArgument.GetInt` | vendor/github.com/rogerclotet/cqrs/argument/argument.go:49-56 | succeeds exactly when the name is present with an int value; a missing name gives not-found and 0, a wrong type gives the type error and 0 |
| `VendorArgument.GetString` | vendor/github.com/rogerclotet/cqrs/argument/argument.go:59-66 | succeeds exactly when the name is present with a string value; a missing name gives not-found and "", a wrong type gives the type error and "" |
| `VendorArgument.IntRoundTrip` | vendor/github.com/rogerclotet/cqrs/argument/argument.go:11-23 | `New(i).Int()` returns `i` with no error |
| `VendorArgument.StringRoundTrip` | vendor/github.com/rogerclotet/cqrs/argument/argument.go:11-33 | `New(s).String()` returns `s` with no error |
| `VendorArgument.AtMostOneAccessorSucceeds` | vendor/github.com/rogerclotet/cqrs/argument/argument.go:16-33 | no argument satisfies both `Int` and `String` |
| `VendorArgument.TypedGettersComposeGet` | vendor/github.com/rogerclotet/cqrs/argument/argument.go:49-66 | `GetInt`/`GetString` equal `Get` followed by the typed accessor, and pass `Get`'s error through with the zero value |
| `LocalArgument.Int` | cqrs/argument/argument.go:11-18 | succeeds exactly when the stored value is an int and then returns it; otherwise returns 0 and a not-an-int error |
| `LocalArgument.String` | cqrs/argument/argument.go:20-28 | succeeds exactly when the stored value is a string and then returns it; otherwise returns "" and a not-a-string error |
| `LocalArgument.Get` | cqrs/argument/argument.go:34-41 | a present name yields the stored argument (boxed, non-nil); a missing name yields nil and an argument-not-found error |
| `LocalArgument.ZeroFailsBoth` | cqrs/argument/argument.go:6-28 | the zero argument (nil value) fails both `Int` and `String` |
| `LocalArgument.AtMostOneAccessorSucceeds` | cqrs/argument/argument.go:11-28 | no argument satisfies both `Int` and `String` |
| `Registration.Build` | cqrs/command/command.go:50-58 | succeeds exactly when all names are distinct, with key set equal to the names and each name mapped to its own handler; otherwise fails with the name at the first position that repeats an earlier one |
| `Registration.FirstRepeatUnique` | cqrs/command/command.go:52-55 | the first repeated position is unique, so the reported name is determined by the entry list |
| `Command.NewRegistry` | cqrs/command/command.go:50-58 | succeeds iff no name repeats, mapping each name to its handler; otherwise a name-already-registered error for the first repeat and no registry |
| `Command.Handle` | cqrs/command/command.go:62-69 | an unregistered name gives a command-not-registered error and leaves the state as it was (no handler runs); a registered one returns exactly that handler's result on the command's arguments |
| `Command.NameOfNew` | cqrs/command/command.go:17-27 | `New(name, args).Name() == name` |
| `Command.EmptyRegistryRejectsAll` | cqrs/command/command_test.go:33-41 | the registry built from no entries is empty, and every command handled by it fails as not registered |
| `Command.HandleRunsRegisteredHandler` | cqrs/command/command.go:62-69 | in a registry built from a list, handling a command named like entry `i` returns entry `i`'s handler result, error included |
| `Command.HandleRejectsUnlistedName` | cqrs/command/command.go:62-66 | in a registry built from a list, a name no entry carries is rejected as not registered |
| `Query.New` | vendor/github.com/rogerclotet/cqrs/query/query.go:18-29 | a new query has the given name and arguments and an empty reply slot |
| `Query.Respond` | vendor/github.com/rogerclotet/cqrs/query/query.go:36-40 | allowed only on an empty slot; afterwards the first reader receives exactly the response, and name and arguments are unchanged |
| `Query.RespondThenReceive` | vendor/github.com/rogerclotet/cqrs/query/query.go:31-40 | responding to a fresh query delivers that response to the first reader, and the slot can no longer be responded to |
| `Query.ResponseGetters` | vendor/github.com/rogerclotet/cqrs/query/query.go:49-64 | `NewResponse(v, e)` has `Response() == v` and `Err() == e` |
| `Query.NewRegistry` | vendor/github.com/rogerclotet/cqrs/query/query.go:87-96 | succeeds iff no name repeats, mapping each name to its handler; otherwise a name-already-registered error for the first repeat and no registry |
| `Query.DuplicateEntryRejected` | cqrs/query/query_test.go:74-86 | registering the same entry twice fails with name-already-registered for its name |
| `Query.Handle` | vendor/github.com/rogerclotet/cqrs/query/query.go:99-106 | an unregistered name gives nil and a query-not-registered error carrying the name; a registered one returns exactly that handler's value and error |
| `Query.HandleRunsRegisteredHandler` | vendor/github.com/rogerclotet/cqrs/query/query.go:99-106 | in a registry built from a list, handling a query named like entry `i` returns entry `i`'s handler result |
| `Query.HandleRejectsUnlistedName` | vendor/github.com/rogerclotet/cqrs/query/query.go:99-103 | in a registry built from a list, a name no entry carries is rejected as not registered |
| `Query.Multiply` | cqrs/query/query_test.go:19-31 | the example handler succeeds exactly when both `a` and `b` are int arguments, returning their product with Go's int wrap-around; on failure it returns 0 |
| `Query.MultiplyProduct` | cqrs/query/query_test.go:21-30 | with int arguments `a` and `b` whose product fits in Go's int, `multiply` returns that product and no error |
| `Query.MultiplyExample` | cqrs/query/query_test.go:18-44 | registering `multiply` succeeds and handling it with a = 3, b = 5 yields 15 with no error |
| `CommandQueue.Step` | main.go:108-125 | start forwards the whole buffer in order, empties it and starts processing; a submission while processing is forwarded at once with the buffer unchanged; a submission while paused is appended and nothing forwarded; cancel pauses and keeps the buffer; "processing implies empty buffer" is preserved |
| `CommandQueue.Run` | main.go:104-126 | over any event sequence, "processing implies empty buffer" is preserved |
| `CommandQueue.StepConserves` | main.go:109-124 | after one event, forwarded items followed by the new buffer equal the old buffer followed by the item submitted, if any |
| `CommandQueue.Conservation` | main.go:104-126 | over any event sequence, forwarded items followed by the final buffer equal the initial buffer followed by all submitted items: no loss, duplication or reordering |
| `CommandQueue.ConservationFromInit` | main.go:105-106 | from the initial paused, empty queue, forwarded items followed by the buffer are exactly the submissions |
| `CommandQueue.RunAppend` | main.go:108-125 | running two event sequences in turn is the same as running their concatenation |
| `CommandQueue.RedundantEventsAreNoOps` | main.go:110-123 | start while processing and cancel while paused change nothing and forward nothing |
| `CommandQueue.PausedSubmissionsBuffer` | main.go:116-121 | while paused, submissions are appended to the buffer in order and none is forwarded |
| `CommandQueue.RunningSubmissionsPassThrough` | main.go:117-118 | while processing, submissions are forwarded in order and the buffer stays empty |
| `CommandQueue.FlushInSubmissionOrder` | main.go:110-115 | items submitted while paused are forwarded on the next start, after the old buffer and in submission order, leaving an empty buffer and a processing queue |
| `CommandQueue.CancelStopsPassThrough` | main.go:122-123 | after a cancel, submissions are buffered and nothing is forwarded until the next start |
| `Workers.HandleAll` | main.go:128-137 | handling a command sequence yields one logged result per command |
| `Workers.CommandHandler` | main.go:128-137 | the loop passes every command to `Handle` exactly once, in order; it ends in the same state and with the same per-command errors as the reference fold; the wait-group counter ends where it began |
| `Workers.HandleAllRecordsEveryResult` | main.go:129-136 | the `k`-th recorded result is what `Handle` returned for the `k`-th command in the state left by the first `k`, so an error does not stop later commands |
| `Workers.ServeQueries` | main.go:147-158 | queries before the first failing one are answered with their handler's value; the first failing one gets nil and the loop stops, so later queries get no answer; the loop stops iff some handler fails |
| `Workers.ServeQueriesFixed` | main.go:147-158 | the corrected loop answers every query: nil for a failing handler, the handler's value otherwise |
| `Workers.AsWrittenIsPrefixOfFixed` | main.go:148-157 | the loop as written answers a prefix of the corrected loop's answers, and all of them exactly when it answers every query |
| `Workers.QueryLoopStopsAtFirstError` | main.go:150-154 | with two unregistered queries, the loop as written answers only the first; the corrected loop answers both |
| `Main.Increment` | main.go:22-26 | the counter rises by exactly 1, wrapping to Go's smallest int only past its largest |
| `Main.IncrementCommand` | main.go:139-145 | the `increment` handler always returns a nil error, including when the counter wraps, and leaves the counter raised by `Increment` |
| `Main.HandledRequestsQuery` | main.go:160-167 | the `handled_requests` handler returns the current count and a nil error, without changing the counter |
| `Main.IncrementThenRead` | main.go:139-167 | `incrementCommand` returns no error, and `handledRequestsQuery` afterwards reads the count one higher |
| `Main.Boot` | main.go:29-45 | both registries are built without error, holding exactly `increment` and `handled_requests` with their handlers, and the counter starts at 0 |
| `Main.IncrementsCount` | main.go:128-145 | handling `k` increment commands raises the counter by `k` and logs no error |
| `Main.CountMatchesForwarded` | main.go:104-167 | for any event sequence that submits only `increment`, the count after handling the forwarded commands is the number submitted minus those still buffered, and `handled_requests` answers exactly that count |
| `Main.FiveIncrementsThenQuery` | main.go:104-167 | a property of the queue and worker loops on their own (in `main` itself `start` is sent before any command can arrive): five increments submitted while paused, then start, are all forwarded in order, and `handled_requests` answers 5 |

## Left out

- HTTP front end (`http.Handle`, `ListenAndServe`, request parsing): I/O plumbing. Submissions and queries appear as event and query sequences instead.
- Signal subscription and process shutdown, `main.go:96-101`: OS interaction.
- The connection-tracking listener, the snapshot store and the socket-passing re-exec: none of them is part of this model, because no source file implements them.
- Goroutines, channels, `select`, `sync.RWMutex` and `sync.WaitGroup`: each worker is a sequential fold. The mutex-guarded counter is plain state, and the wait group is an integer counter.
- Once cancelled, `ctx.Done()` stays ready, so `select` may keep choosing it. Cancel is modelled as a single pause event, so this busy-loop effect is not modelled.
- `context.Context` arguments: no handler reads them.
- Exact `fmt.Errorf` text and `log.Printf` output: errors are kinds carrying the offending name or value, and logging is a no-op.
- Dynamic types other than int and string (floats, slices, funcs): all collapse into `OtherV`. No floating point is modelled.
- `main.go` calls `q.Respond(nil)` and `q.Respond(res)` against the repository's own `cqrs/query` package, which is not modelled, whose signature differs from the vendored `Respond(Response)`. The query loop's answers are therefore modelled as plain `Value`s.
- Query.Handle: query handlers only read the state. A Go query handler could in principle mutate what its closure captures; none in the repository does.
- Main.Increment: assumes Go's `int` is 64 bits wide. On a 32-bit platform the wrap-around point differs.

## Findings

| source | as written | input that shows it | evidently intended | confidence | as-written member | corrected member |
|---|---|---|---|---|---|---|
| main.go:150-154 | after answering nil to a failing query, `queryHandler` returns, so no later query is ever answered and each of its callers blocks forever | two queries for unregistered names `bar` and `baz`: only `bar` gets an answer | answer nil and continue with the next query, as `commandHandler` does after an error | not executed | `Workers.QueryLoopStopsAtFirstError` | `Workers.ServeQueriesFixed` |
