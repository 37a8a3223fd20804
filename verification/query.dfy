/**
  * The query bus of the vendored CQRS library. A query is a name plus
  * arguments plus a one-shot reply slot; the registry maps names to
  * handlers that read the application state `S` and return a value and
  * an error.
  */
module Query {
  import opened Wrappers
  import opened Values
  import opened Errors
  import VendorArgument
  import Registration

  /** What a query's reply slot carries: a result value and an error. */
  datatype Response = Response(response: Value, err: Option<Error>)

  /**
    * `reply` is the query's buffered channel of capacity one: `None` until
    * `Respond` fills it, and a reader blocked on it proceeds once it is filled.
    */
  datatype Query = Query(name: string, args: VendorArgument.Arguments, reply: Option<Response>)

  /** A fresh query carries the given name and arguments and an empty reply slot. */
  function New(name: string, args: VendorArgument.Arguments): (q: Query)
    ensures Name(q) == name && q.args == args
    ensures Receive(q).None?
  {
    Query(name, args, None)
  }

  function Name(q: Query): (name: string) {
    q.name
  }

  /**
    * What the first reader of the reply channel gets; `None` means it is
    * still waiting. Go closes the channel after the send, so any later read
    * returns the zero `Response{}` at once; that is not modelled. A Go
    * `Query` is copied by value yet every copy shares one channel, whereas
    * here `Respond` fills only the query value it returns.
    */
  function Receive(q: Query): (reply: Option<Response>) {
    q.reply
  }

  /**
    * Sends `res` and closes the channel. A second call sends on a closed
    * channel, which panics, so the slot must still be empty.
    */
  function Respond(q: Query, res: Response): (q': Query)
    requires Receive(q).None?
    ensures Receive(q') == Some(res)
    ensures Name(q') == Name(q) && q'.args == q.args
  {
    q.(reply := Some(res))
  }

  function NewResponse(res: Value, err: Option<Error>): (r: Response) {
    Response(res, err)
  }

  /** Go's `Response.Response()` getter. */
  function ResponseValue(r: Response): (v: Value) {
    r.response
  }

  /** Go's `Response.Err()` getter. */
  function Err(r: Response): (e: Option<Error>) {
    r.err
  }

  /** A handler reads the state and returns a value and an error. */
  type Handler<!S> = (S, VendorArgument.Arguments) -> Ret<Value>

  type RegisteredQuery<!S> = Registration.Entry<Handler<S>>

  type Registry<!S> = map<string, Handler<S>>

  function NewRegisteredQuery<S>(name: string, handler: Handler<S>): (e: RegisteredQuery<S>) {
    Registration.Entry(name, handler)
  }

  /**
    * Succeeds exactly when no name repeats, mapping each name to its own
    * handler; otherwise reports the first repeated name and no registry.
    */
  function NewRegistry<S>(queries: seq<RegisteredQuery<S>>): (r: Result<Registry<S>, Error>)
    ensures r.Success? <==> Registration.DistinctNames(queries)
    ensures r.Success? ==> Registration.Maps(r.value, queries)
    ensures r.Failure? ==> r.error.NameAlreadyRegistered?
    ensures r.Failure? ==> exists k :: Registration.FirstRepeat(queries, k) && queries[k].name == r.error.name
  {
    match Registration.Build(queries)
    case Success(m) => Success(m)
    case Failure(name) => Failure(NameAlreadyRegistered(name))
  }

  /**
    * Runs the handler registered under the query's name on its arguments;
    * an unknown name gives nil and a not-registered error.
    */
  function Handle<S>(r: Registry<S>, s: S, q: Query): (out: Ret<Value>)
    ensures q.name !in r ==> out == Ret(NilV, Some(QueryNotRegistered(q.name)))
    ensures q.name in r ==> out == r[q.name](s, q.args)
  {
    if q.name in r then r[q.name](s, q.args) else Ret(NilV, Some(QueryNotRegistered(q.name)))
  }

  /** The getters return what `NewResponse` was given. */
  lemma ResponseGetters(v: Value, e: Option<Error>)
    ensures ResponseValue(NewResponse(v, e)) == v
    ensures Err(NewResponse(v, e)) == e
  {
  }

  /** The reader receives exactly the response sent, and the slot is then spent. */
  lemma RespondThenReceive(name: string, args: VendorArgument.Arguments, res: Response)
    ensures Receive(Respond(New(name, args), res)) == Some(res)
    ensures !Receive(Respond(New(name, args), res)).None?
  {
  }

  /** Registering one entry twice fails with that entry's name. */
  lemma DuplicateEntryRejected<S>(e: RegisteredQuery<S>)
    ensures NewRegistry([e, e]) == Failure(NameAlreadyRegistered(e.name))
  {
    var es := [e, e];
    assert es[0].name == es[1].name;
    var r := NewRegistry(es);
    var k :| Registration.FirstRepeat(es, k) && es[k].name == r.error.name;
  }

  /** A registry built from `queries` runs the handler of the entry named by the query. */
  lemma HandleRunsRegisteredHandler<S>(queries: seq<RegisteredQuery<S>>, i: int, s: S, args: VendorArgument.Arguments)
    requires NewRegistry(queries).Success?
    requires 0 <= i < |queries|
    ensures Handle(NewRegistry(queries).value, s, New(queries[i].name, args)) == queries[i].handler(s, args)
  {
  }

  /** A registry built from `queries` rejects every name none of them carries. */
  lemma HandleRejectsUnlistedName<S>(queries: seq<RegisteredQuery<S>>, s: S, q: Query)
    requires NewRegistry(queries).Success?
    requires forall i :: 0 <= i < |queries| ==> queries[i].name != q.name
    ensures Handle(NewRegistry(queries).value, s, q) == Ret(NilV, Some(QueryNotRegistered(q.name)))
  {
  }

  /** The example handler `multiply`: the product of the int arguments `a` and `b`. */
  function Multiply(args: VendorArgument.Arguments): (r: Ret<Value>)
    ensures r.Ok() <==> VendorArgument.GetInt(args, "a").Ok() && VendorArgument.GetInt(args, "b").Ok()
    ensures r.Ok() ==> r.value == IntV(Wrap(VendorArgument.GetInt(args, "a").value as int * VendorArgument.GetInt(args, "b").value as int))
    ensures !r.Ok() ==> r.value == IntV(0)
  {
    var a := VendorArgument.GetInt(args, "a");
    if !a.Ok() then Ret(IntV(0), Some(Raised("could not get argument a")))
    else
      var b := VendorArgument.GetInt(args, "b");
      if !b.Ok() then Ret(IntV(0), Some(Raised("could not get argument b")))
      else Ret(IntV(Wrap(a.value as int * b.value as int)), None)
  }

  /** With int arguments whose product fits in Go's int, `multiply` returns that product. */
  lemma MultiplyProduct(args: VendorArgument.Arguments, x: int64, y: int64)
    requires "a" in args && args["a"] == VendorArgument.New(IntV(x))
    requires "b" in args && args["b"] == VendorArgument.New(IntV(y))
    requires MinInt64 <= x as int * y as int <= MaxInt64
    ensures Multiply(args) == Ret(IntV((x as int * y as int) as int64), None)
  {
  }

  /** Registering `multiply` and handling it with a = 3 and b = 5 gives 15. */
  lemma MultiplyExample(s: int)
    ensures var r := NewRegistry([NewRegisteredQuery("multiply", (_: int, args) => Multiply(args))]);
            && r.Success?
            && Handle(r.value, s, New("multiply", map["a" := VendorArgument.New(IntV(3)), "b" := VendorArgument.New(IntV(5))])) == Ret(IntV(15), None)
  {
  }
}
