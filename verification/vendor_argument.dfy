/**
  * Arguments of the vendored CQRS library: an `Argument` wraps one
  * dynamically typed value, and `Arguments` maps names to arguments.
  * This variant has `New`, `GetInt` and `GetString`, and its `Get`
  * returns an `Argument`.
  */
module VendorArgument {
  import opened Wrappers
  import opened Values
  import opened Errors

  datatype Argument = Argument(value: Value)

  type Arguments = map<string, Argument>

  /** The zero `Argument{}`, holding the nil interface. */
  const Zero: Argument := Argument(NilV)

  function New(v: Value): (a: Argument)
  {
    Argument(v)
  }

  /** The stored value if it is an int; otherwise 0 and a type error. */
  function Int(a: Argument): (r: Ret<int64>)
    ensures r.Ok() <==> a.value.IntV?
    ensures r.Ok() ==> r.value == a.value.i
    ensures !r.Ok() ==> r == Ret(0, Some(NotAnInt(a.value)))
  {
    match a.value
    case IntV(i) => Ret(i, None)
    case _ => Ret(0, Some(NotAnInt(a.value)))
  }

  /** The stored value if it is a string; otherwise "" and a type error. */
  function String(a: Argument): (r: Ret<string>)
    ensures r.Ok() <==> a.value.StrV?
    ensures r.Ok() ==> r.value == a.value.s
    ensures !r.Ok() ==> r == Ret("", Some(NotAString(a.value)))
  {
    match a.value
    case StrV(s) => Ret(s, None)
    case _ => Ret("", Some(NotAString(a.value)))
  }

  /** The argument stored under `name`, or the zero argument and a not-found error. */
  function Get(args: Arguments, name: string): (r: Ret<Argument>)
    ensures r.Ok() <==> name in args
    ensures name in args ==> r.value == args[name]
    ensures name !in args ==> r == Ret(Zero, Some(ArgumentNotFound(name)))
  {
    if name in args then Ret(args[name], None) else Ret(Zero, Some(ArgumentNotFound(name)))
  }

  /** `Get` followed by `Int`: a missing name reports not-found, a non-int a type error. */
  function GetInt(args: Arguments, name: string): (r: Ret<int64>)
    ensures r.Ok() <==> name in args && args[name].value.IntV?
    ensures r.Ok() ==> r.value == args[name].value.i
    ensures name !in args ==> r == Ret(0, Some(ArgumentNotFound(name)))
    ensures name in args && !args[name].value.IntV? ==> r == Ret(0, Some(NotAnInt(args[name].value)))
  {
    var arg := Get(args, name);
    if arg.err.Some? then Ret(0, arg.err) else Int(arg.value)
  }

  /** `Get` followed by `String`, with the same two failure modes as `GetInt`. */
  function GetString(args: Arguments, name: string): (r: Ret<string>)
    ensures r.Ok() <==> name in args && args[name].value.StrV?
    ensures r.Ok() ==> r.value == args[name].value.s
    ensures name !in args ==> r == Ret("", Some(ArgumentNotFound(name)))
    ensures name in args && !args[name].value.StrV? ==> r == Ret("", Some(NotAString(args[name].value)))
  {
    var arg := Get(args, name);
    if arg.err.Some? then Ret("", arg.err) else String(arg.value)
  }

  /** Wrapping an int and reading it back gives the same int without error. */
  lemma IntRoundTrip(i: int64)
    ensures Int(New(IntV(i))) == Ret(i, None)
  {
  }

  /** Wrapping a string and reading it back gives the same string without error. */
  lemma StringRoundTrip(s: string)
    ensures String(New(StrV(s))) == Ret(s, None)
  {
  }

  /** No argument is both an int and a string. */
  lemma AtMostOneAccessorSucceeds(a: Argument)
    ensures !(Int(a).Ok() && String(a).Ok())
  {
  }

  /** The typed getters agree with `Get` followed by the typed accessor. */
  lemma TypedGettersComposeGet(args: Arguments, name: string)
    ensures Get(args, name).Ok() ==> GetInt(args, name) == Int(Get(args, name).value)
    ensures Get(args, name).Ok() ==> GetString(args, name) == String(Get(args, name).value)
    ensures !Get(args, name).Ok() ==> GetInt(args, name) == Ret(0, Get(args, name).err)
    ensures !Get(args, name).Ok() ==> GetString(args, name) == Ret("", Get(args, name).err)
  {
  }
}
