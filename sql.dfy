/**
 * The raw-SQL value object (`SQL`): an immutable fragment of SQL text together with
 * the named parameters it brings along. Statements splice its text in verbatim and
 * copy its parameters into their own placeholder table instead of allocating one.
 * Every operation builds a new value; none reads the receiver's own text or
 * parameters except the two accessors.
 */
module RawSql {
  import opened Php

  datatype Sql = Sql(text: string, parameters: seq<(string, Scalar)>)

  /** `new SQL()`: the constructor's defaults are empty text and no parameters. */
  function Default(): (r: Sql)
    ensures ToString(r) == "" && GetParameters(r) == []
  {
    Sql("", [])
  }

  /** `__toString`: the text given to the constructor. */
  function ToString(s: Sql): string {
    s.text
  }

  /** `getParameters`: the parameters given to the constructor. */
  function GetParameters(s: Sql): seq<(string, Scalar)> {
    s.parameters
  }

  /** `$sql->name`: a fragment whose text is the property name, without parameters. */
  function Get(receiver: Sql, name: string): (r: Sql)
    ensures ToString(r) == name && GetParameters(r) == []
  {
    Sql(name, [])
  }

  /**
   * `$sql->name(arg, ...)`: the text `name(arg)` built from the first argument only
   * (`name()` when there is none or it is null), without parameters.
   */
  function Call(receiver: Sql, name: string, arguments: seq<Scalar>): (r: Sql)
    ensures GetParameters(r) == []
    ensures |ToString(r)| == |name| + 2 + (if arguments == [] then 0 else |ScalarText(arguments[0])|)
    ensures ToString(r)[..|name|] == name && ToString(r)[|name|] == '('
    ensures ToString(r)[|ToString(r)| - 1] == ')'
  {
    Sql(name + "(" + (if arguments == [] then "" else ScalarText(arguments[0])) + ")", [])
  }

  /** `$sql(text, parameters)`: a fragment carrying exactly that text and those parameters. */
  function Invoke(receiver: Sql, text: string, parameters: seq<(string, Scalar)>): (r: Sql)
    ensures ToString(r) == text && GetParameters(r) == parameters
  {
    Sql(text, parameters)
  }

  /** The text between the parentheses of a call is the first argument, and no later one. */
  lemma CallUsesFirstArgumentOnly(a: Sql, b: Sql, name: string, first: Scalar, rest1: seq<Scalar>, rest2: seq<Scalar>)
    ensures Call(a, name, [first] + rest1) == Call(b, name, [first] + rest2)
    ensures ToString(Call(a, name, [first])) == name + "(" + ScalarText(first) + ")"
    ensures Call(a, name, [Null]) == Call(a, name, [])
  {
  }
}
