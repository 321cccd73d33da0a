/** The built-in validators of lib/vandrake/validator/ and the error-message
    machinery of their base class, as pure decisions.

    A validator run has three stages, each a function here:
    `ValidateParams` (the constructor's `validate_params`), the arity check of
    `Base#validate`, and the validator's own `run_validator`, which either
    accepts or names an error code with its message arguments (`Decide`).
    `Render` is `set_error`: it looks the code up in the validator's error
    table and fills the template. `Check` composes the three: it is what
    `Validator.new(params).validate(*values)` answers. */
module Validators {
  import opened Wrappers
  import opened Values
  import opened Formats

  datatype Kind =
    | Presence | Absence | Length | Inclusion | Exclusion
    | ValueMatch | Format | BooleanCoercible

  /** The class name without its module prefix: the registry key. */
  function KindName(k: Kind): string
  {
    match k
    case Presence => "Presence"
    case Absence => "Absence"
    case Length => "Length"
    case Inclusion => "Inclusion"
    case Exclusion => "Exclusion"
    case ValueMatch => "ValueMatch"
    case Format => "Format"
    case BooleanCoercible => "BooleanCoercible"
  }

  /** `inputs`: 1 unless the class sets `@inputs` (ValueMatch sets 2). */
  function Inputs(k: Kind): nat
  {
    if k == ValueMatch then 2 else 1
  }

  /** `raw?`: false unless the class sets `@is_raw` (BooleanCoercible). */
  predicate IsRaw(k: Kind)
  {
    k == BooleanCoercible
  }

  /** Each class's `@error_codes` table. */
  function ErrorCodes(k: Kind): map<string, string>
  {
    match k
    case Presence => map["missing" := "must be provided", "empty" := "cannot be empty"]
    case Absence => map["present" := "must be absent"]
    case Length => map["short" := "has to be longer than %d characters",
                       "long" := "has to be %d characters or less"]
    case Inclusion => map["not_in_range" := "must be between %s and %s",
                          "not_in_set" := "must be one of: %s"]
    case Exclusion => map["in_range" := "must not be between %s and %s",
                          "in_set" := "must not be any of: %s"]
    case ValueMatch => map["no_match" := "must be the same"]
    case Format => map["not_email" := "has to be a valid email address",
                       "not_ip" := "has to be a valid ip address",
                       "not_alnum" := "can only contain letters and numbers",
                       "not_hex" := "has to be a valid hexadecimal number",
                       "wrong_format" := "has to be in the correct format"]
    case BooleanCoercible => map["not_boolean" := "must be one of: true, false, 1, 0"]
  }

  /** What `run_validator` decides: accept, or reject with an error code and
      the arguments it passes to `set_error`. */
  datatype Decision = Accept | Reject(code: string, args: seq<string>)

  /** What a completed `validate` leaves behind: success, or the
      `last_error_code` and `last_error` it set. */
  datatype Verdict = Passed | Failed(code: string, message: string)

  // ---------------------------------------------------------------------------
  // Message templates (`sprintf` in `set_error`)
  // ---------------------------------------------------------------------------

  /** `sprintf(template, *args)` for the `%d` and `%s` directives the error
      tables use; each directive takes the next argument, already rendered.
      Too few arguments raise, as in Ruby; extra ones are ignored. */
  function Fill(t: string, args: seq<string>): Result<string, string>
    decreases |t|
  {
    if |t| >= 2 && t[0] == '%' && (t[1] == 'd' || t[1] == 's') then
      if args == [] then Failure("too few arguments")
      else Prepend(args[0], Fill(t[2..], args[1..]))
    else if t == [] then Success([])
    else Prepend([t[0]], Fill(t[1..], args))
  }

  function Prepend(p: string, r: Result<string, string>): Result<string, string>
  {
    match r
    case Success(s) => Success(p + s)
    case Failure(e) => Failure(e)
  }

  /** Text without `%` is copied through unchanged. */
  lemma {:induction false} FillLiteral(s: string, args: seq<string>)
    requires '%' !in s
    ensures Fill(s, args) == Success(s)
  {
    if s != [] {
      FillLiteral(s[1..], args);
      assert [s[0]] + s[1..] == s;
    }
  }

  /** A `%`-free prefix is copied in front of whatever the rest renders to. */
  lemma {:induction false} FillPrefix(p: string, rest: string, args: seq<string>)
    requires '%' !in p
    ensures Fill(p + rest, args) == Prepend(p, Fill(rest, args))
  {
    if p != [] {
      var t := p + rest;
      assert t[0] == p[0] && t[0] != '%';
      assert t[1..] == p[1..] + rest;
      assert Fill(t, args) == Prepend([p[0]], Fill(t[1..], args));
      FillPrefix(p[1..], rest, args);
      match Fill(rest, args) {
        case Success(r) => assert [p[0]] + (p[1..] + r) == p + r;
        case Failure(_) =>
      }
    } else {
      assert p + rest == rest;
      match Fill(rest, args) {
        case Success(r) => assert p + r == r;
        case Failure(_) =>
      }
    }
  }

  /** A directive at the very front takes the first argument. */
  lemma FillDirective(d: char, post: string, a: string, args: seq<string>)
    requires d == 'd' || d == 's'
    ensures Fill(['%', d] + post, [a] + args) == Prepend(a, Fill(post, args))
  {
    var t := ['%', d] + post;
    assert t[2..] == post;
    assert ([a] + args)[1..] == args;
  }

  /** A template with one directive between two literal parts. */
  lemma FillOne(pre: string, d: char, post: string, a: string)
    requires '%' !in pre && '%' !in post && (d == 'd' || d == 's')
    ensures Fill(pre + ['%', d] + post, [a]) == Success(pre + a + post)
  {
    assert pre + ['%', d] + post == pre + (['%', d] + post);
    FillPrefix(pre, ['%', d] + post, [a]);
    FillDirective(d, post, a, []);
    assert [a] + [] == [a];
    FillLiteral(post, []);
    assert pre + (a + post) == pre + a + post;
  }

  /** A template that starts with a `%s` directive and holds one more. */
  lemma FillLeadingTwo(mid: string, post: string, a: string, b: string)
    requires '%' !in mid && '%' !in post
    ensures Fill(['%', 's'] + (mid + ['%', 's'] + post), [a, b]) == Success(a + (mid + b + post))
  {
    FillOne(mid, 's', post, b);
    FillDirective('s', mid + ['%', 's'] + post, a, [b]);
    assert [a] + [b] == [a, b];
  }

  /** A template with two `%s` directives separated by literal text. */
  lemma FillTwo(pre: string, mid: string, post: string, a: string, b: string)
    requires '%' !in pre && '%' !in mid && '%' !in post
    ensures Fill(pre + "%s" + mid + "%s" + post, [a, b]) == Success(pre + a + mid + b + post)
  {
    var t1 := ['%', 's'] + (mid + ['%', 's'] + post);
    assert pre + "%s" + mid + "%s" + post == pre + t1;
    FillLeadingTwo(mid, post, a, b);
    FillPrefix(pre, t1, [a, b]);
    assert pre + (a + (mid + b + post)) == pre + a + mid + b + post;
  }

  /** `set_error(code, *args)`: an unknown code raises; otherwise the template
      is filled, but only when arguments are given. */
  function Render(k: Kind, code: string, args: seq<string>): (r: Result<Verdict, string>)
    ensures r.Success? <==> code in ErrorCodes(k) && (args == [] || Fill(ErrorCodes(k)[code], args).Success?)
    ensures r.Success? ==> r.value.Failed? && r.value.code == code
    ensures r.Success? && args == [] ==> r.value.message == ErrorCodes(k)[code]
  {
    if code !in ErrorCodes(k) then
      Failure("Unknown error code " + code + " for validator Vandrake::Validator::" + KindName(k))
    else if args == [] then Success(Failed(code, ErrorCodes(k)[code]))
    else
      match Fill(ErrorCodes(k)[code], args)
      case Success(m) => Success(Failed(code, m))
      case Failure(e) => Failure(e)
  }

  // ---------------------------------------------------------------------------
  // Construction-time parameter checks (`validate_params`)
  // ---------------------------------------------------------------------------

  /** The objects accepted as `:in`/`:not_in`: those responding to `include?`
      among Range, Array and String. A Hash also responds to `include?` and
      Ruby accepts it, testing membership by key; this model rejects it. */
  predicate IsCollection(c: Param)
  {
    c.Range? || (c.Val? && (c.v.List? || c.v.Str?))
  }

  function ValidateParams(k: Kind, params: map<string, Param>): Outcome<string>
  {
    match k
    case Length =>
      if "length" !in params then Fail("Missing :legth parameter for Length validator")
      else if !params["length"].Range? then
        Fail("The :length parameter has to be provided as a Range, " + ClassName(params["length"]) + " given")
      else Pass
    case Inclusion =>
      if "in" !in params then Fail("Missing :in parameter for Inclusion validator")
      else if !IsCollection(params["in"]) then
        Fail("The :in parameter must be provided as an Enumerable, " + ClassName(params["in"]) + " given")
      else Pass
    case Exclusion =>
      if "not_in" !in params then Fail("Missing :not_in parameter for Exclusion validator")
      else if !IsCollection(params["not_in"]) then
        Fail("The :not_in parameter must be provided as an Enumerable, " + ClassName(params["not_in"]) + " given")
      else Pass
    case Format =>
      if "format" !in params then Fail("Missing :format parameter for Format validator")
      else
        var f := params["format"];
        if !(f.Regex? || SymbolName(f).Some?) then
          Fail("The :format parameter has to be either a Symbol or a Regexp, " + ClassName(f) + " given")
        else if SymbolName(f).Some? && SymbolName(f).value !in FORMATS then
          Fail("Unknown format \"" + SymbolName(f).value + "\" in Format validator")
        else Pass
    case _ => Pass
  }

  // ---------------------------------------------------------------------------
  // The rules (`run_validator` of each class)
  // ---------------------------------------------------------------------------

  function PresenceRule(v: Value): Decision
  {
    if v.Nil? then Reject("missing", [])
    else if IsEmpty(v) then Reject("empty", [])
    else Accept
  }

  function AbsenceRule(v: Value): Decision
  {
    if v.Nil? || IsEmpty(v) then Accept else Reject("present", [])
  }

  /** Ruby's `(lo..hi).min` and `.max` are nil for an empty range; nil
      compares with nothing and renders as "" under `%s`. */
  function LengthRule(range: Param, v: Value): Result<Decision, string>
    requires range.Range?
  {
    if v.Nil? || !HasLength(v) then Success(Accept)
    else if range.lo > range.hi then Failure("comparison of Fixnum with nil failed")
    else if LengthOf(v) < range.lo then Success(Reject("short", [IntToString(range.lo)]))
    else if LengthOf(v) > range.hi then Success(Reject("long", [IntToString(range.hi)]))
    else Success(Accept)
  }

  /** `collection.include?(v)`: an integer range holds the integers between its
      bounds, an Array its elements (by `==`), a String its substrings; a
      String raises for a non-String argument. */
  function Member(c: Param, v: Value): Result<bool, string>
    requires IsCollection(c)
  {
    match c
    case Range(lo, hi) => Success(v.Int? && lo <= v.i <= hi)
    case Val(List(xs)) => Success(v in xs)
    case Val(Str(s)) =>
      if v.Str? then Success(IsSubstring(v.s, s))
      else Failure("no implicit conversion of " + ConversionName(v) + " into String")
  }

  predicate IsSubstring(t: string, s: string)
  {
    t <= s || (s != [] && IsSubstring(t, s[1..]))
  }

  function RangeEnd(lo: int, hi: int, bound: int): string
  {
    if lo <= hi then IntToString(bound) else ""
  }

  /** `collection.to_a.join(', ')` for a non-Range collection; a String has
      no `to_a`. */
  function ElementsText(c: Param): Result<string, string>
    requires IsCollection(c) && !c.Range?
  {
    match c
    case Val(List(xs)) => Success(Join(xs, ", "))
    case Val(Str(s)) => Failure("undefined method `to_a' for " + Inspect(Str(s)) + ":String")
  }

  function InclusionRule(c: Param, v: Value): Result<Decision, string>
    requires IsCollection(c)
  {
    if v.Nil? then Success(Accept)
    else
      match Member(c, v)
      case Failure(e) => Failure(e)
      case Success(true) => Success(Accept)
      case Success(false) =>
        if c.Range? then
          Success(Reject("not_in_range", [RangeEnd(c.lo, c.hi, c.lo), RangeEnd(c.lo, c.hi, c.hi)]))
        else
          match ElementsText(c)
          case Success(t) => Success(Reject("not_in_set", [t]))
          case Failure(e) => Failure(e)
  }

  function ExclusionRule(c: Param, v: Value): Result<Decision, string>
    requires IsCollection(c)
  {
    if v.Nil? then Success(Accept)
    else
      match Member(c, v)
      case Failure(e) => Failure(e)
      case Success(false) => Success(Accept)
      case Success(true) =>
        if c.Range? then
          Success(Reject("in_range", [RangeEnd(c.lo, c.hi, c.lo), RangeEnd(c.lo, c.hi, c.hi)]))
        else
          match ElementsText(c)
          case Success(t) => Success(Reject("in_set", [t]))
          case Failure(e) => Failure(e)
  }

  /** `value1 === value2`, which for these values is structural equality. */
  function ValueMatchRule(a: Value, b: Value): Decision
  {
    if a.Nil? && b.Nil? then Accept
    else if a == b then Accept
    else Reject("no_match", [])
  }

  /** `regex =~ value`: strings and symbols are matched, anything else
      raises. */
  function MatchValue(matches: string -> bool, v: Value): Result<bool, string>
    requires !v.Nil?
  {
    match v
    case Str(s) => Success(matches(s))
    case Sym(n) => Success(matches(n))
    case _ => Failure("no implicit conversion of " + ConversionName(v) + " into String")
  }

  /** The error code for a format parameter: `not_<name>` for a named format,
      `wrong_format` for a regular expression. */
  function FormatCode(f: Param): string
  {
    if SymbolName(f).Some? then "not_" + SymbolName(f).value else "wrong_format"
  }

  /** Format's rule, with the named pattern looked up by the format's symbol
      name, so that a format given as a String such as "alnum" uses the
      pattern its name denotes. */
  function FormatRule(f: Param, v: Value): Result<Decision, string>
    requires ValidateParams(Format, map["format" := f]).Pass?
  {
    if v.Nil? then Success(Accept)
    else
      var matches := if SymbolName(f).Some? then (s: string) => Matches(FORMATS[SymbolName(f).value], s)
                     else f.matches;
      match MatchValue(matches, v)
      case Failure(e) => Failure(e)
      case Success(true) => Success(Accept)
      case Success(false) => Success(Reject(FormatCode(f), []))
  }

  /** Format's rule as format.rb:53-54 writes it: the pattern is
      `FORMATS[format]` with the format itself as key. The keys are Symbols,
      so a format given as a String finds no pattern, and `nil =~ value` is nil:
      every non-nil value is rejected. */
  function FormatRuleAsWritten(f: Param, v: Value): Result<Decision, string>
    requires ValidateParams(Format, map["format" := f]).Pass?
  {
    if v.Nil? then Success(Accept)
    else if f.Val? && f.v.Str? then Success(Reject(FormatCode(f), []))
    else FormatRule(f, v)
  }

  const BooleanLiterals: seq<string> := ["true", "false", "0", "1"]

  function BooleanRule(v: Value): Decision
  {
    if v.Nil? then Accept
    else if Downcase(ToS(v)) in BooleanLiterals then Accept
    else Reject("not_boolean", [])
  }

  // ---------------------------------------------------------------------------
  // The validator as a whole
  // ---------------------------------------------------------------------------

  /** `run_validator(*values)` of the validator of kind `k`, on parameters the
      constructor accepted and the number of values `validate` requires. */
  function Decide(k: Kind, params: map<string, Param>, values: seq<Value>): Result<Decision, string>
    requires ValidateParams(k, params).Pass? && |values| == Inputs(k)
  {
    match k
    case Presence => Success(PresenceRule(values[0]))
    case Absence => Success(AbsenceRule(values[0]))
    case Length => LengthRule(params["length"], values[0])
    case Inclusion => InclusionRule(params["in"], values[0])
    case Exclusion => ExclusionRule(params["not_in"], values[0])
    case ValueMatch => Success(ValueMatchRule(values[0], values[1]))
    case Format =>
      assert map["format" := params["format"]]["format"] == params["format"];
      FormatRule(params["format"], values[0])
    case BooleanCoercible => Success(BooleanRule(values[0]))
  }

  function ArityMessage(k: Kind, given: nat): string
  {
    "This validator takes " + IntToString(Inputs(k)) + " value(s) for validation, "
    + IntToString(given) + " given"
  }

  /** `Validator.new(params).validate(*values)`: the constructor's parameter
      check, the arity check, then the rule and `set_error`. */
  function Check(k: Kind, params: map<string, Param>, values: seq<Value>): Result<Verdict, string>
  {
    match ValidateParams(k, params)
    case Fail(e) => Failure(e)
    case Pass =>
      if |values| != Inputs(k) then Failure(ArityMessage(k, |values|))
      else
        match Decide(k, params, values)
        case Failure(e) => Failure(e)
        case Success(Accept) => Success(Passed)
        case Success(Reject(code, args)) => Render(k, code, args)
  }
}
