/**
 * The Python built-ins that `api_submit` and the admin handlers apply to
 * decoded JSON: truthiness (`if not data`), the `in` operator, `int(...)`
 * and `str(...)`. A built-in that raises (TypeError, ValueError) yields `None`.
 */
module Py {
  import opened Wrappers
  import opened Json
  import Numerals

  /** Python's `not x`: None, False, 0, "", [] and {} are falsy. */
  predicate Falsy(j: Json)
  {
    match j
    case Null => true
    case Bool(b) => !b
    case Int(i) => i == 0
    case Str(s) => s == ""
    case List(items) => items == []
    case Object(ms) => ms == []
  }

  /** Python's `needle in hay` for two strings: a substring test. */
  predicate IsSubstring(needle: string, hay: string)
    decreases |hay|
  {
    needle <= hay || (hay != [] && IsSubstring(needle, hay[1..]))
  }

  /**
   * Python's `key in container` with a string `key`: a key test on a dict,
   * a substring test on a string, an element test on a list; on None, a
   * bool or an int it raises TypeError.
   */
  function Contains(container: Json, key: string): (r: Option<bool>)
    ensures r.None? <==> container.Null? || container.Bool? || container.Int?
    ensures container.Object? ==> r == Some(HasKey(container.members, key))
  {
    match container
    case Object(ms) => Some(HasKey(ms, key))
    case Str(s) => Some(IsSubstring(key, s))
    case List(items) => Some(Str(key) in items)
    case _ => None
  }

  /**
   * Python's `int(x)` for a decoded JSON value: an int is itself, a bool is
   * 0 or 1, a string is parsed as a decimal numeral; None, a list or a dict
   * raise TypeError.
   */
  function ToInt(j: Json): (r: Option<int>)
    ensures j.Int? ==> r == Some(j.i)
    ensures j.Bool? ==> r == Some(if j.b then 1 else 0)
    ensures j.Str? ==> r == Numerals.ParseInt(j.s)
    ensures j.Null? || j.List? || j.Object? ==> r.None?
  {
    match j
    case Int(i) => Some(i)
    case Bool(b) => Some(if b then 1 else 0)
    case Str(s) => Numerals.ParseInt(s)
    case _ => None
  }

  /** Python's `str(x)`: a string is itself, everything else its `repr`. */
  function ToStr(j: Json): string
  {
    if j.Str? then j.s else Repr(j)
  }

  /** `str` then `int` gives an integer back unchanged. */
  lemma IntSurvivesStr(i: int)
    ensures ToInt(Str(ToStr(Int(i)))) == Some(i)
  {
    Numerals.IntToDecimalParses(i);
  }

  /** Python's `repr(x)` for a decoded JSON value. */
  function Repr(j: Json): string
    decreases j, 1
  {
    match j
    case Null => "None"
    case Bool(b) => if b then "True" else "False"
    case Int(i) => Numerals.IntToDecimal(i)
    case Str(s) => ReprStr(s)
    case List(items) => "[" + ReprItems(items) + "]"
    case Object(ms) => "{" + ReprMembers(ms) + "}"
  }

  function ReprItems(items: seq<Json>): string
    decreases items, 0
  {
    if items == [] then ""
    else if |items| == 1 then Repr(items[0])
    else Repr(items[0]) + ", " + ReprItems(items[1..])
  }

  function ReprMembers(ms: seq<Member>): string
    decreases ms, 0
  {
    if ms == [] then ""
    else
      var first := ReprStr(ms[0].key) + ": " + Repr(ms[0].value);
      if |ms| == 1 then first else first + ", " + ReprMembers(ms[1..])
  }

  /**
   * Python's `repr` of a string: single quotes, unless the string holds a
   * single quote and no double quote; backslash, the chosen quote, tab,
   * newline, carriage return and the other ASCII control characters are
   * escaped.
   */
  function ReprStr(s: string): string
  {
    var quote := if '\'' in s && '"' !in s then '"' else '\'';
    [quote] + ReprChars(s, quote) + [quote]
  }

  function ReprChars(s: string, quote: char): string
    decreases |s|
  {
    if s == [] then "" else ReprChar(s[0], quote) + ReprChars(s[1..], quote)
  }

  function ReprChar(c: char, quote: char): string
  {
    if c == quote || c == '\\' then ['\\', c]
    else if c == '\t' then "\\t"
    else if c == '\n' then "\\n"
    else if c == '\r' then "\\r"
    else if c < ' ' || c as int == 0x7F then "\\x" + [HexDigit(c as int / 16), HexDigit(c as int % 16)]
    else [c]
  }

  function HexDigit(d: int): char
    requires 0 <= d < 16
  {
    "0123456789abcdef"[d]
  }
}
