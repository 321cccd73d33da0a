/** The dynamic Ruby values the engine handles.

    `Value` is what a host record stores in an attribute and what validators
    receive. `Param` is what callers pass when building validations and
    chains: any `Value`, and also the objects that only occur as
    construction parameters (a `Range`, a `Regexp`, an options `Hash`, or
    some other object known only by its class name). */
module Values {
  import opened Wrappers

  datatype Value =
    | Nil
    | Bool(b: bool)
    | Int(i: int)
    | Str(s: string)
    | Sym(name: string)
    | List(items: seq<Value>)

  /** A regular expression is known by its source text; what it matches is an
      abstract predicate on strings (the Ruby regex engine is not modelled). */
  datatype Param =
    | Val(v: Value)
    | Range(lo: int, hi: int)
    | Regex(source: string, matches: string -> bool)
    | Hash(entries: map<string, Param>)
    | Object(className: string)

  /** Ruby's `obj.class.name`, with the 1.9 class names the error texts show. */
  function ClassName(p: Param): string
  {
    match p
    case Val(v) => ValueClassName(v)
    case Range(_, _) => "Range"
    case Regex(_, _) => "Regexp"
    case Hash(_) => "Hash"
    case Object(c) => c
  }

  function ValueClassName(v: Value): string
  {
    match v
    case Nil => "NilClass"
    case Bool(b) => if b then "TrueClass" else "FalseClass"
    case Int(_) => "Fixnum"
    case Str(_) => "String"
    case Sym(_) => "Symbol"
    case List(_) => "Array"
  }

  /** The name `obj.to_sym` gives, for the objects that respond to `to_sym`
      (String and Symbol); None for every other object. */
  function SymbolName(p: Param): (r: Option<string>)
    ensures r.Some? <==> p.Val? && (p.v.Str? || p.v.Sym?)
  {
    match p
    case Val(Str(s)) => Some(s)
    case Val(Sym(n)) => Some(n)
    case _ => None
  }

  /** Ruby truthiness: everything except nil and false. */
  predicate Truthy(p: Param)
  {
    !(p.Val? && (p.v.Nil? || p.v == Bool(false)))
  }

  function Digit(d: nat): char
    requires d < 10
  {
    "0123456789"[d]
  }

  predicate IsDigit(c: char)
  {
    '0' <= c <= '9'
  }

  /** Decimal rendering of a natural number, most significant digit first. */
  function NatToString(n: nat): (s: string)
    ensures |s| >= 1
    ensures forall k :: 0 <= k < |s| ==> IsDigit(s[k])
    ensures |s| == 1 <==> n < 10
  {
    if n < 10 then [Digit(n)] else NatToString(n / 10) + [Digit(n % 10)]
  }

  /** `Integer#to_s` (and `sprintf("%d")`) for any integer. */
  function IntToString(i: int): (s: string)
    ensures |s| >= 1
    ensures i < 0 <==> s[0] == '-'
  {
    if i < 0 then "-" + NatToString(-i) else NatToString(i)
  }

  /** `String#downcase` on ASCII letters. */
  function Downcase(s: string): (r: string)
    ensures |r| == |s|
    ensures forall k :: 0 <= k < |s| && !('A' <= s[k] <= 'Z') ==> r[k] == s[k]
  {
    if s == [] then []
    else
      var c := s[0];
      [if 'A' <= c <= 'Z' then (c as int + 32) as char else c] + Downcase(s[1..])
  }

  /** `obj.inspect`, as `Array#to_s` shows elements (string escapes are not
      rendered). */
  function Inspect(v: Value): string
  {
    match v
    case Nil => "nil"
    case Str(s) => "\"" + s + "\""
    case Sym(n) => ":" + n
    case List(xs) => "[" + InspectAll(xs) + "]"
    case Bool(b) => if b then "true" else "false"
    case Int(i) => IntToString(i)
  }

  function InspectAll(xs: seq<Value>): string
  {
    if xs == [] then ""
    else if |xs| == 1 then Inspect(xs[0])
    else Inspect(xs[0]) + ", " + InspectAll(xs[1..])
  }

  /** `obj.to_s`. */
  function ToS(v: Value): string
  {
    match v
    case Nil => ""
    case Bool(b) => if b then "true" else "false"
    case Int(i) => IntToString(i)
    case Str(s) => s
    case Sym(n) => n
    case List(xs) => "[" + InspectAll(xs) + "]"
  }

  /** `Array#join(sep)`: elements as `to_s`, nested arrays joined recursively
      with the same separator. */
  function Join(xs: seq<Value>, sep: string): string
  {
    if xs == [] then ""
    else
      var head := match xs[0] case List(ys) => Join(ys, sep) case _ => ToS(xs[0]);
      if |xs| == 1 then head else head + sep + Join(xs[1..], sep)
  }

  /** The values that respond to `empty?` and `length`: String, Symbol, Array. */
  predicate HasLength(v: Value)
  {
    v.Str? || v.Sym? || v.List?
  }

  function LengthOf(v: Value): nat
    requires HasLength(v)
  {
    match v
    case Str(s) => |s|
    case Sym(n) => |n|
    case List(xs) => |xs|
  }

  predicate IsEmpty(v: Value)
  {
    HasLength(v) && LengthOf(v) == 0
  }

  /** How Ruby names an object in "no implicit conversion of X into String". */
  function ConversionName(v: Value): string
  {
    match v
    case Nil => "nil"
    case Bool(b) => if b then "true" else "false"
    case _ => ValueClassName(v)
  }
}
