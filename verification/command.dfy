/**
  * The command bus of `cqrs/command`: commands are a name plus arguments,
  * a registry maps names to handlers, and `Handle` dispatches by name.
  * A Go handler is a closure over shared application state; here that
  * state is an explicit parameter `S` that the handler receives and
  * returns.
  */
module Command {
  import opened Wrappers
  import opened Errors
  import LocalArgument
  import Registration

  datatype Command = Command(name: string, args: LocalArgument.Arguments)

  function New(name: string, args: LocalArgument.Arguments): (c: Command) {
    Command(name, args)
  }

  function Name(c: Command): (name: string) {
    c.name
  }

  /** A handler returns the updated state and the error it reports, if any. */
  type Handler<!S> = (S, LocalArgument.Arguments) -> (S, Option<Error>)

  type RegisteredCommand<!S> = Registration.Entry<Handler<S>>

  type Registry<!S> = map<string, Handler<S>>

  function NewRegisteredCommand<S>(name: string, handler: Handler<S>): (e: RegisteredCommand<S>) {
    Registration.Entry(name, handler)
  }

  /**
    * Succeeds exactly when no name repeats, mapping each name to its own
    * handler; otherwise reports the first repeated name and no registry.
    */
  function NewRegistry<S>(commands: seq<RegisteredCommand<S>>): (r: Result<Registry<S>, Error>)
    ensures r.Success? <==> Registration.DistinctNames(commands)
    ensures r.Success? ==> Registration.Maps(r.value, commands)
    ensures r.Failure? ==> r.error.NameAlreadyRegistered?
    ensures r.Failure? ==> exists k :: Registration.FirstRepeat(commands, k) && commands[k].name == r.error.name
  {
    match Registration.Build(commands)
    case Success(m) => Success(m)
    case Failure(name) => Failure(NameAlreadyRegistered(name))
  }

  /**
    * Dispatches `c` to the handler registered under its name. An unknown
    * name is reported and leaves the state untouched, since no handler runs.
    */
  function Handle<S>(r: Registry<S>, s: S, c: Command): (out: (S, Option<Error>))
    ensures c.name !in r ==> out == (s, Some(CommandNotRegistered(c.name)))
    ensures c.name in r ==> out == r[c.name](s, c.args)
  {
    if c.name in r then r[c.name](s, c.args) else (s, Some(CommandNotRegistered(c.name)))
  }

  lemma NameOfNew(name: string, args: LocalArgument.Arguments)
    ensures Name(New(name, args)) == name
  {
  }

  /** The empty registry is built without error and rejects every command. */
  lemma EmptyRegistryRejectsAll<S>(s: S, c: Command)
    ensures NewRegistry<S>([]) == Success(map[])
    ensures Handle(map[], s, c) == (s, Some(CommandNotRegistered(c.name)))
  {
  }

  /** A registry built from `commands` runs the handler of the entry named by the command. */
  lemma HandleRunsRegisteredHandler<S>(commands: seq<RegisteredCommand<S>>, i: int, s: S, args: LocalArgument.Arguments)
    requires NewRegistry(commands).Success?
    requires 0 <= i < |commands|
    ensures Handle(NewRegistry(commands).value, s, New(commands[i].name, args)) == commands[i].handler(s, args)
  {
  }

  /** A registry built from `commands` rejects every name none of them carries. */
  lemma HandleRejectsUnlistedName<S>(commands: seq<RegisteredCommand<S>>, s: S, c: Command)
    requires NewRegistry(commands).Success?
    requires forall i :: 0 <= i < |commands| ==> commands[i].name != c.name
    ensures Handle(NewRegistry(commands).value, s, c) == (s, Some(CommandNotRegistered(c.name)))
  {
  }
}
