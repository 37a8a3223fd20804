/**
  * Arguments of the repository's own `cqrs/argument` package, which the
  * command bus uses. Unlike the vendored variant it has no constructor and
  * no typed getters, and its `Get` returns the argument boxed in an
  * `interface{}`: `Some(argument)`, or `None` for nil.
  */
module LocalArgument {
  import opened Wrappers
  import opened Values
  import opened Errors

  datatype Argument = Argument(value: Value)

  type Arguments = map<string, Argument>

  /** The zero `Argument{}`, holding the nil interface. */
  const Zero: Argument := Argument(NilV)

  /** The stored value if it is an int; otherwise 0 and a type error. */
  function Int(a: Argument): (r: Ret<int64>)
    ensures r.Ok() <==> a.value.IntV?
    ensures r.Ok() ==> r.value == a.value.i
    ensures !r.Ok() ==> r == Ret(0, Some(NotAnInt(a.value)))
  {
    match a.value
    case IntV(i) => Ret(i, None)
    case _ => Ret(0, Some(NotAnInt(a.value)))
  }

  /** The stored value if it is a string; otherwise "" and a type error. */
  function String(a: Argument): (r: Ret<string>)
    ensures r.Ok() <==> a.value.StrV?
    ensures r.Ok() ==> r.value == a.value.s
    ensures !r.Ok() ==> r == Ret("", Some(NotAString(a.value)))
  {
    match a.value
    case StrV(s) => Ret(s, None)
    case _ => Ret("", Some(NotAString(a.value)))
  }

  /** The argument stored under `name`, or nil and a not-found error. */
  function Get(args: Arguments, name: string): (r: Ret<Option<Argument>>)
    ensures r.Ok() <==> name in args
    ensures r.Ok() <==> r.value.Some?
    ensures name in args ==> r.value == Some(args[name])
    ensures name !in args ==> r.err == Some(ArgumentNotFound(name))
  {
    if name in args then Ret(Some(args[name]), None) else Ret(None, Some(ArgumentNotFound(name)))
  }

  /** The zero argument fails both typed accessors. */
  lemma ZeroFailsBoth()
    ensures !Int(Zero).Ok() && !String(Zero).Ok()
  {
  }

  /** No argument is both an int and a string. */
  lemma AtMostOneAccessorSucceeds(a: Argument)
    ensures !(Int(a).Ok() && String(a).Ok())
  {
  }
}
