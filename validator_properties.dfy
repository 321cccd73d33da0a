/** What the built-in validators promise, stated over `Check`, that is, over
    `Validator.new(params).validate(*values)`. */
module ValidatorProperties {
  import opened Wrappers
  import opened Values
  import opened Formats
  import opened Validators

  // ---------------------------------------------------------------------------
  // Base: arity and the error tables
  // ---------------------------------------------------------------------------

  lemma SmallNumbers()
    ensures IntToString(0) == "0" && IntToString(1) == "1" && IntToString(2) == "2"
    ensures IntToString(4) == "4" && IntToString(10) == "10"
  {
    assert NatToString(1) == "1" && NatToString(2) == "2" && NatToString(4) == "4";
    assert NatToString(10) == NatToString(1) + [Digit(0)];
  }

  // The templates filled with their arguments, and `Decide` on each
  // parameterised validator, one small proof each: comparing long string
  // literals is costly for the solver, so the message lemmas below only chain
  // these.
  lemma ShortMessage(a: string)
    ensures Fill(ErrorCodes(Length)["short"], [a]) == Success("has to be longer than " + a + " characters")
  {
    assert ErrorCodes(Length)["short"] == "has to be longer than " + ['%', 'd'] + " characters";
    FillOne("has to be longer than ", 'd', " characters", a);
  }

  lemma LongMessage(a: string)
    ensures Fill(ErrorCodes(Length)["long"], [a]) == Success("has to be " + a + " characters or less")
  {
    assert ErrorCodes(Length)["long"] == "has to be " + ['%', 'd'] + " characters or less";
    FillOne("has to be ", 'd', " characters or less", a);
  }

  lemma NotInRangeMessage(a: string, b: string)
    ensures Fill(ErrorCodes(Inclusion)["not_in_range"], [a, b]) == Success("must be between " + a + " and " + b)
  {
    assert ErrorCodes(Inclusion)["not_in_range"] == "must be between " + "%s" + " and " + "%s" + "";
    FillTwo("must be between ", " and ", "", a, b);
    assert "must be between " + a + " and " + b + "" == "must be between " + a + " and " + b;
  }

  lemma NotInSetMessage(a: string)
    ensures Fill(ErrorCodes(Inclusion)["not_in_set"], [a]) == Success("must be one of: " + a)
  {
    assert ErrorCodes(Inclusion)["not_in_set"] == "must be one of: " + ['%', 's'] + "";
    FillOne("must be one of: ", 's', "", a);
    assert "must be one of: " + a + "" == "must be one of: " + a;
  }

  lemma InRangeMessage(a: string, b: string)
    ensures Fill(ErrorCodes(Exclusion)["in_range"], [a, b]) == Success("must not be between " + a + " and " + b)
  {
    assert ErrorCodes(Exclusion)["in_range"] == "must not be between " + "%s" + " and " + "%s" + "";
    FillTwo("must not be between ", " and ", "", a, b);
    assert "must not be between " + a + " and " + b + "" == "must not be between " + a + " and " + b;
  }

  lemma InSetMessage(a: string)
    ensures Fill(ErrorCodes(Exclusion)["in_set"], [a]) == Success("must not be any of: " + a)
  {
    assert ErrorCodes(Exclusion)["in_set"] == "must not be any of: " + ['%', 's'] + "";
    FillOne("must not be any of: ", 's', "", a);
    assert "must not be any of: " + a + "" == "must not be any of: " + a;
  }

  lemma DecideLength(r: Param, v: Value)
    requires r.Range?
    ensures ValidateParams(Length, map["length" := r]).Pass?
    ensures Decide(Length, map["length" := r], [v]) == LengthRule(r, v)
  {
    assert map["length" := r]["length"] == r;
  }

  lemma DecideInclusion(c: Param, v: Value)
    requires IsCollection(c)
    ensures ValidateParams(Inclusion, map["in" := c]).Pass?
    ensures Decide(Inclusion, map["in" := c], [v]) == InclusionRule(c, v)
  {
    assert map["in" := c]["in"] == c;
  }

  lemma DecideExclusion(c: Param, v: Value)
    requires IsCollection(c)
    ensures ValidateParams(Exclusion, map["not_in" := c]).Pass?
    ensures Decide(Exclusion, map["not_in" := c], [v]) == ExclusionRule(c, v)
  {
    assert map["not_in" := c]["not_in"] == c;
  }

  /** A rejection with arguments comes out of `Check` as the filled
      template. */
  lemma RejectionRendered(k: Kind, params: map<string, Param>, values: seq<Value>,
                          code: string, args: seq<string>, m: string)
    requires ValidateParams(k, params).Pass? && |values| == Inputs(k)
    requires Decide(k, params, values) == Success(Reject(code, args))
    requires code in ErrorCodes(k) && args != [] && Fill(ErrorCodes(k)[code], args) == Success(m)
    ensures Check(k, params, values) == Success(Failed(code, m))
  {
  }

  /** Every validator but ValueMatch takes one value; only BooleanCoercible is
      raw. */
  lemma Defaults(k: Kind)
    ensures Inputs(k) == (if k == ValueMatch then 2 else 1)
    ensures IsRaw(k) <==> k == BooleanCoercible
  {
  }

  /** With accepted parameters, the wrong number of values raises the arity
      error, whatever the values are. */
  lemma ArityError(k: Kind, params: map<string, Param>, values: seq<Value>)
    requires ValidateParams(k, params).Pass? && |values| != Inputs(k)
    ensures Check(k, params, values) == Failure(ArityMessage(k, |values|))
  {
  }

  /** The message value_match_spec.rb quotes. */
  lemma ArityMessageExample(given: nat)
    requires given == 1
    ensures ArityMessage(ValueMatch, given) ==
      "This validator takes " + "2" + " value(s) for validation, " + "1" + " given"
  {
    SmallNumbers();
  }

  /** A decision names no code outside the validator's table. */
  predicate CodeKnown(k: Kind, d: Result<Decision, string>)
  {
    d.Success? && d.value.Reject? ==> d.value.code in ErrorCodes(k)
  }

  /** `set_error` only ever sees codes of the validator's own table, so the
      "Unknown error code" error cannot come out of a built-in validator. */
  lemma DecidedCodesAreKnown(k: Kind, params: map<string, Param>, values: seq<Value>)
    requires ValidateParams(k, params).Pass? && |values| == Inputs(k)
    ensures CodeKnown(k, Decide(k, params, values))
  {
    if k in {Format, Length, Inclusion, Exclusion} {
      assert values == [values[0]];
      ParametrisedCodesKnown(k, params, values[0]);
    }
  }

  /** The validators whose decision depends on their parameters. */
  lemma ParametrisedCodesKnown(k: Kind, params: map<string, Param>, v: Value)
    requires k in {Format, Length, Inclusion, Exclusion} && ValidateParams(k, params).Pass?
    ensures CodeKnown(k, Decide(k, params, [v]))
  {
    if k == Format {
      FormatDecisionKnown(params, v);
    } else if k == Length {
      DecideLength(params["length"], v);
      assert params["length"] == map["length" := params["length"]]["length"];
      LengthCodesKnown(params["length"], v);
    } else if k == Inclusion {
      DecideInclusion(params["in"], v);
      assert params["in"] == map["in" := params["in"]]["in"];
      InclusionCodesKnown(params["in"], v);
    } else {
      DecideExclusion(params["not_in"], v);
      assert params["not_in"] == map["not_in" := params["not_in"]]["not_in"];
      ExclusionCodesKnown(params["not_in"], v);
    }
  }

  lemma FormatDecisionKnown(params: map<string, Param>, v: Value)
    requires ValidateParams(Format, params).Pass?
    ensures CodeKnown(Format, Decide(Format, params, [v]))
  {
    var f := params["format"];
    DecideFormat(params, v);
    if SymbolName(f).Some? {
      FormatCodeKnown(SymbolName(f).value);
    }
  }

  lemma LengthCodesKnown(r: Param, v: Value)
    requires r.Range?
    ensures CodeKnown(Length, LengthRule(r, v))
  {
  }

  lemma InclusionCodesKnown(c: Param, v: Value)
    requires IsCollection(c)
    ensures CodeKnown(Inclusion, InclusionRule(c, v))
  {
  }

  lemma ExclusionCodesKnown(c: Param, v: Value)
    requires IsCollection(c)
    ensures CodeKnown(Exclusion, ExclusionRule(c, v))
  {
  }

  lemma DecideFormat(params: map<string, Param>, v: Value)
    requires ValidateParams(Format, params).Pass?
    ensures ValidateParams(Format, map["format" := params["format"]]).Pass?
    ensures Decide(Format, params, [v]) == FormatRule(params["format"], v)
  {
    assert map["format" := params["format"]]["format"] == params["format"];
  }

  /** `not_<name>` is in Format's table for each named format. */
  lemma FormatCodeKnown(name: string)
    requires name in FORMATS
    ensures "not_" + name in ErrorCodes(Format)
    ensures ErrorCodes(Format)["not_" + name] == FormatMessage(FORMATS[name])
  {
    assert name == "email" || name == "ip" || name == "alnum" || name == "hex";
    if name == "email" {
      assert "not_" + name == "not_email";
    } else if name == "ip" {
      assert "not_" + name == "not_ip";
    } else if name == "alnum" {
      assert "not_" + name == "not_alnum";
    } else {
      assert "not_" + name == "not_hex";
    }
  }

  /** The message for each named format, as format.rb lists them. */
  function FormatMessage(f: NamedFormat): string
  {
    match f
    case Email => "has to be a valid email address"
    case Ip => "has to be a valid ip address"
    case Alnum => "can only contain letters and numbers"
    case Hex => "has to be a valid hexadecimal number"
  }

  /** An unknown code raises; a known one sets the code and the template. */
  lemma RenderUnknownCode(k: Kind, code: string, args: seq<string>)
    requires code !in ErrorCodes(k)
    ensures Render(k, code, args).Failure?
  {
  }

  /** Without arguments the template is the message, unfilled. */
  lemma RenderWithoutArgs(k: Kind, code: string)
    requires code in ErrorCodes(k)
    ensures Render(k, code, []) == Success(Failed(code, ErrorCodes(k)[code]))
  {
  }

  /** nil passes every validator except Presence (ValueMatch sees two nils). */
  lemma NilPassesAllButPresence(k: Kind, params: map<string, Param>)
    requires k != Presence && ValidateParams(k, params).Pass?
    ensures Check(k, params, if k == ValueMatch then [Nil, Nil] else [Nil]) == Success(Passed)
  {
    if k == Format {
      DecideFormat(params, Nil);
    }
  }

  // ---------------------------------------------------------------------------
  // Presence and Absence
  // ---------------------------------------------------------------------------

  lemma PresenceErrorTable()
    ensures ErrorCodes(Presence).Keys == {"missing", "empty"}
  {
  }

  lemma PresenceMissing(params: map<string, Param>)
    ensures Check(Presence, params, [Nil]) == Success(Failed("missing", "must be provided"))
  {
  }

  lemma PresenceEmpty(params: map<string, Param>, v: Value)
    requires IsEmpty(v)
    ensures Check(Presence, params, [v]) == Success(Failed("empty", "cannot be empty"))
  {
  }

  /** Anything non-nil and not empty passes, including false and 0, which have
      no emptiness at all. */
  lemma PresencePasses(params: map<string, Param>, v: Value)
    requires !v.Nil? && !IsEmpty(v)
    ensures Check(Presence, params, [v]) == Success(Passed)
  {
  }

  lemma AbsencePasses(params: map<string, Param>, v: Value)
    requires v.Nil? || IsEmpty(v)
    ensures Check(Absence, params, [v]) == Success(Passed)
  {
  }

  /** false, 0 and non-empty strings are present. */
  lemma AbsenceFails(params: map<string, Param>, v: Value)
    requires !v.Nil? && !IsEmpty(v)
    ensures Check(Absence, params, [v]) == Success(Failed("present", "must be absent"))
  {
  }

  /** "The opposite of Presence": on every value exactly one of the two passes,
      and neither raises. */
  lemma AbsenceIsOppositeOfPresence(params: map<string, Param>, v: Value)
    ensures Check(Presence, params, [v]).Success? && Check(Absence, params, [v]).Success?
    ensures Check(Absence, params, [v]) == Success(Passed) <==> Check(Presence, params, [v]) != Success(Passed)
  {
  }

  // ---------------------------------------------------------------------------
  // Length
  // ---------------------------------------------------------------------------

  lemma LengthParams(params: map<string, Param>)
    ensures "length" !in params ==>
      ValidateParams(Length, params) == Fail("Missing :legth parameter for Length validator")
    ensures "length" in params && !params["length"].Range? ==>
      ValidateParams(Length, params) ==
        Fail("The :length parameter has to be provided as a Range, " + ClassName(params["length"]) + " given")
  {
  }

  /** nil and values without a length pass, whatever the range. */
  lemma LengthIgnoresLengthless(lo: int, hi: int, v: Value)
    requires !HasLength(v)
    ensures Check(Length, map["length" := Range(lo, hi)], [v]) == Success(Passed)
  {
    DecideLength(Range(lo, hi), v);
  }

  lemma LengthTooShort(lo: int, hi: int, v: Value)
    requires lo <= hi && HasLength(v) && LengthOf(v) < lo
    ensures Check(Length, map["length" := Range(lo, hi)], [v]) ==
      Success(Failed("short", "has to be longer than " + IntToString(lo) + " characters"))
  {
    var params, bound := map["length" := Range(lo, hi)], IntToString(lo);
    DecideLength(Range(lo, hi), v);
    assert Decide(Length, params, [v]) == Success(Reject("short", [bound]));
    ShortMessage(bound);
    assert "short" in ErrorCodes(Length);
    RejectionRendered(Length, params, [v], "short", [bound], "has to be longer than " + bound + " characters");
  }

  lemma LengthTooLong(lo: int, hi: int, v: Value)
    requires lo <= hi && HasLength(v) && LengthOf(v) > hi
    ensures Check(Length, map["length" := Range(lo, hi)], [v]) ==
      Success(Failed("long", "has to be " + IntToString(hi) + " characters or less"))
  {
    var params, bound := map["length" := Range(lo, hi)], IntToString(hi);
    DecideLength(Range(lo, hi), v);
    assert Decide(Length, params, [v]) == Success(Reject("long", [bound]));
    LongMessage(bound);
    assert "long" in ErrorCodes(Length);
    RejectionRendered(Length, params, [v], "long", [bound], "has to be " + bound + " characters or less");
  }

  /** Both bounds are inclusive. */
  lemma LengthWithin(lo: int, hi: int, v: Value)
    requires HasLength(v) && lo <= LengthOf(v) <= hi
    ensures Check(Length, map["length" := Range(lo, hi)], [v]) == Success(Passed)
  {
    DecideLength(Range(lo, hi), v);
  }

  /** An empty range has nil bounds, and comparing a length with nil raises. */
  lemma LengthEmptyRange(lo: int, hi: int, v: Value)
    requires lo > hi && HasLength(v)
    ensures Check(Length, map["length" := Range(lo, hi)], [v]) == Failure("comparison of Fixnum with nil failed")
  {
    DecideLength(Range(lo, hi), v);
  }

  /** A case of length_spec.rb, with `4..10`. */
  lemma LengthShortExample(v: Value)
    requires v == Str("jon")
    ensures Check(Length, map["length" := Range(4, 10)], [v]) ==
      Success(Failed("short", "has to be longer than 4 characters"))
  {
    LengthTooShort(4, 10, v);
    ShortText();
  }

  lemma ShortText()
    ensures "has to be longer than " + IntToString(4) + " characters" == "has to be longer than 4 characters"
  {
    SmallNumbers();
  }

  lemma LengthLongExample(v: Value)
    requires v == Str("this is way too long")
    ensures Check(Length, map["length" := Range(4, 10)], [v]) ==
      Success(Failed("long", "has to be 10 characters or less"))
  {
    LengthTooLong(4, 10, v);
    LongText();
  }

  lemma LongText()
    ensures "has to be " + IntToString(10) + " characters or less" == "has to be 10 characters or less"
  {
    SmallNumbers();
  }

  // ---------------------------------------------------------------------------
  // Inclusion and Exclusion
  // ---------------------------------------------------------------------------

  lemma InclusionParams(params: map<string, Param>)
    ensures "in" !in params ==>
      ValidateParams(Inclusion, params) == Fail("Missing :in parameter for Inclusion validator")
    ensures "in" in params && !IsCollection(params["in"]) && !params["in"].Hash? ==>
      ValidateParams(Inclusion, params) ==
        Fail("The :in parameter must be provided as an Enumerable, " + ClassName(params["in"]) + " given")
    ensures "in" in params && IsCollection(params["in"]) ==> ValidateParams(Inclusion, params) == Pass
  {
  }

  lemma ExclusionParams(params: map<string, Param>)
    ensures "not_in" !in params ==>
      ValidateParams(Exclusion, params) == Fail("Missing :not_in parameter for Exclusion validator")
    ensures "not_in" in params && !IsCollection(params["not_in"]) && !params["not_in"].Hash? ==>
      ValidateParams(Exclusion, params) ==
        Fail("The :not_in parameter must be provided as an Enumerable, " + ClassName(params["not_in"]) + " given")
    ensures "not_in" in params && IsCollection(params["not_in"]) ==> ValidateParams(Exclusion, params) == Pass
  {
  }

  lemma InclusionMember(c: Param, v: Value)
    requires IsCollection(c) && Member(c, v) == Success(true)
    ensures Check(Inclusion, map["in" := c], [v]) == Success(Passed)
  {
    DecideInclusion(c, v);
  }

  lemma InclusionNotInRange(lo: int, hi: int, v: Value)
    requires !v.Nil? && !(v.Int? && lo <= v.i <= hi)
    ensures Check(Inclusion, map["in" := Range(lo, hi)], [v]) ==
      Success(Failed("not_in_range", "must be between " + RangeEnd(lo, hi, lo) + " and " + RangeEnd(lo, hi, hi)))
  {
    var args := [RangeEnd(lo, hi, lo), RangeEnd(lo, hi, hi)];
    DecideInclusion(Range(lo, hi), v);
    NotInRangeMessage(args[0], args[1]);
    RejectionRendered(Inclusion, map["in" := Range(lo, hi)], [v], "not_in_range", args,
      "must be between " + args[0] + " and " + args[1]);
  }

  lemma InclusionNotInSet(xs: seq<Value>, v: Value)
    requires !v.Nil? && v !in xs
    ensures Check(Inclusion, map["in" := Val(List(xs))], [v]) ==
      Success(Failed("not_in_set", "must be one of: " + Join(xs, ", ")))
  {
    DecideInclusion(Val(List(xs)), v);
    NotInSetMessage(Join(xs, ", "));
    RejectionRendered(Inclusion, map["in" := Val(List(xs))], [v], "not_in_set", [Join(xs, ", ")],
      "must be one of: " + Join(xs, ", "));
  }

  lemma ExclusionInRange(lo: int, hi: int, i: int)
    requires lo <= i <= hi
    ensures Check(Exclusion, map["not_in" := Range(lo, hi)], [Int(i)]) ==
      Success(Failed("in_range",
        "must not be between " + IntToString(lo) + " and " + IntToString(hi)))
  {
    var args := [IntToString(lo), IntToString(hi)];
    DecideExclusion(Range(lo, hi), Int(i));
    InRangeMessage(args[0], args[1]);
    RejectionRendered(Exclusion, map["not_in" := Range(lo, hi)], [Int(i)], "in_range", args,
      "must not be between " + args[0] + " and " + args[1]);
  }

  lemma ExclusionInSet(xs: seq<Value>, v: Value)
    requires !v.Nil? && v in xs
    ensures Check(Exclusion, map["not_in" := Val(List(xs))], [v]) ==
      Success(Failed("in_set", "must not be any of: " + Join(xs, ", ")))
  {
    DecideExclusion(Val(List(xs)), v);
    InSetMessage(Join(xs, ", "));
    RejectionRendered(Exclusion, map["not_in" := Val(List(xs))], [v], "in_set", [Join(xs, ", ")],
      "must not be any of: " + Join(xs, ", "));
  }

  lemma ExclusionNonMember(c: Param, v: Value)
    requires IsCollection(c) && Member(c, v) == Success(false)
    ensures Check(Exclusion, map["not_in" := c], [v]) == Success(Passed)
  {
    DecideExclusion(c, v);
  }

  /** For a range or an array and a non-nil value, Exclusion passes exactly
      when Inclusion fails, and neither raises. */
  lemma ExclusionIsOppositeOfInclusion(c: Param, v: Value)
    requires c.Range? || (c.Val? && c.v.List?)
    requires !v.Nil?
    ensures Check(Inclusion, map["in" := c], [v]).Success?
    ensures Check(Exclusion, map["not_in" := c], [v]).Success?
    ensures Check(Exclusion, map["not_in" := c], [v]) == Success(Passed) <==>
            Check(Inclusion, map["in" := c], [v]) != Success(Passed)
  {
    DecideInclusion(c, v);
    DecideExclusion(c, v);
    if c.Range? {
      if Member(c, v) == Success(false) {
        InclusionNotInRange(c.lo, c.hi, v);
      } else {
        ExclusionInRange(c.lo, c.hi, v.i);
      }
    } else {
      if v in c.v.items {
        ExclusionInSet(c.v.items, v);
      } else {
        InclusionNotInSet(c.v.items, v);
      }
    }
  }

  /** A case of exclusion_spec.rb. */
  lemma ExclusionRangeExample(i: int)
    requires i == 5
    ensures Check(Exclusion, map["not_in" := Range(0, 10)], [Int(i)]) ==
      Success(Failed("in_range", "must not be between 0 and 10"))
  {
    ExclusionInRange(0, 10, i);
    InRangeText();
  }

  lemma InRangeText()
    ensures "must not be between " + IntToString(0) + " and " + IntToString(10) == "must not be between 0 and 10"
  {
    SmallNumbers();
  }

  lemma ExclusionSetExample(xs: seq<Value>, v: Value)
    requires xs == [Str("one"), Str("two"), Str("three")] && v == Str("two")
    ensures Check(Exclusion, map["not_in" := Val(List(xs))], [v]) ==
      Success(Failed("in_set", "must not be any of: one, two, three"))
  {
    ExclusionInSet(xs, v);
    InSetText(xs);
  }

  lemma InSetText(xs: seq<Value>)
    requires xs == [Str("one"), Str("two"), Str("three")]
    ensures "must not be any of: " + Join(xs, ", ") == "must not be any of: one, two, three"
  {
    assert Join(xs[2..], ", ") == "three";
    assert Join(xs[1..], ", ") == "two, three";
  }

  /** A String as the collection: `String#include?` raises for anything but a
      String, tests substrings otherwise, and the set message then needs
      `to_a`, which a String does not have. */
  lemma StringCollection(s: string, v: Value)
    ensures var conversion := "no implicit conversion of " + ConversionName(v) + " into String";
      !v.Nil? && !v.Str? ==>
        Check(Inclusion, map["in" := Val(Str(s))], [v]) == Failure(conversion)
        && Check(Exclusion, map["not_in" := Val(Str(s))], [v]) == Failure(conversion)
    ensures var noToA := "undefined method `to_a' for " + Inspect(Str(s)) + ":String";
      v.Str? && !IsSubstring(v.s, s) ==>
        Check(Inclusion, map["in" := Val(Str(s))], [v]) == Failure(noToA)
        && Check(Exclusion, map["not_in" := Val(Str(s))], [v]) == Success(Passed)
    ensures var noToA := "undefined method `to_a' for " + Inspect(Str(s)) + ":String";
      v.Str? && IsSubstring(v.s, s) ==>
        Check(Inclusion, map["in" := Val(Str(s))], [v]) == Success(Passed)
        && Check(Exclusion, map["not_in" := Val(Str(s))], [v]) == Failure(noToA)
  {
    DecideInclusion(Val(Str(s)), v);
    DecideExclusion(Val(Str(s)), v);
  }

  /** `join` flattens a nested Array with the same separator. */
  lemma NestedJoinExample()
    ensures Join([Int(1), List([Int(2), Int(3)])], ", ") == "1, 2, 3"
  {
    SmallNumbers();
    assert IntToString(3) == "3" by { assert NatToString(3) == "3"; }
    var inner := [Int(2), Int(3)];
    assert Join(inner[1..], ", ") == "3";
    assert Join(inner, ", ") == "2, 3";
    assert [Int(1), List(inner)][1..] == [List(inner)];
    assert Join([List(inner)], ", ") == "2, 3";
  }

  // ---------------------------------------------------------------------------
  // ValueMatch
  // ---------------------------------------------------------------------------

  lemma ValueMatchPasses(params: map<string, Param>, a: Value, b: Value)
    requires a == b
    ensures Check(ValueMatch, params, [a, b]) == Success(Passed)
  {
  }

  /** Different values fail; nil against a non-nil value is different. */
  lemma ValueMatchFails(params: map<string, Param>, a: Value, b: Value)
    requires a != b
    ensures Check(ValueMatch, params, [a, b]) == Success(Failed("no_match", "must be the same"))
  {
  }

  lemma ValueMatchOneValue(params: map<string, Param>, a: Value)
    ensures Check(ValueMatch, params, [a]) ==
      Failure("This validator takes " + "2" + " value(s) for validation, " + "1" + " given")
  {
    ArityMessageExample(1);
  }

  // ---------------------------------------------------------------------------
  // Format
  // ---------------------------------------------------------------------------

  lemma FormatParams(params: map<string, Param>)
    ensures "format" !in params ==>
      ValidateParams(Format, params) == Fail("Missing :format parameter for Format validator")
    ensures "format" in params && !params["format"].Regex? && SymbolName(params["format"]).None? ==>
      ValidateParams(Format, params) ==
        Fail("The :format parameter has to be either a Symbol or a Regexp, " + ClassName(params["format"]) + " given")
    ensures "format" in params && SymbolName(params["format"]).Some? && SymbolName(params["format"]).value !in FORMATS ==>
      ValidateParams(Format, params) ==
        Fail("Unknown format \"" + SymbolName(params["format"]).value + "\" in Format validator")
  {
  }

  /** A string that does not match a named format fails with `not_<name>` and
      that code's message. */
  lemma FormatNamedMismatch(name: string, s: string)
    requires name in FORMATS && !Matches(FORMATS[name], s)
    ensures Check(Format, map["format" := Val(Sym(name))], [Str(s)]) ==
      Success(Failed("not_" + name, FormatMessage(FORMATS[name])))
  {
    var params := map["format" := Val(Sym(name))];
    DecideFormat(params, Str(s));
    assert Decide(Format, params, [Str(s)]) == Success(Reject("not_" + name, []));
    FormatCodeKnown(name);
    assert Render(Format, "not_" + name, []) == Success(Failed("not_" + name, FormatMessage(FORMATS[name])));
  }

  lemma FormatNamedMatch(name: string, s: string)
    requires name in FORMATS && Matches(FORMATS[name], s)
    ensures Check(Format, map["format" := Val(Sym(name))], [Str(s)]) == Success(Passed)
  {
    DecideFormat(map["format" := Val(Sym(name))], Str(s));
  }

  /** A custom pattern that does not match fails with `wrong_format`. */
  lemma FormatCustomMismatch(source: string, m: string -> bool, s: string)
    requires !m(s)
    ensures Check(Format, map["format" := Regex(source, m)], [Str(s)]) ==
      Success(Failed("wrong_format", "has to be in the correct format"))
  {
    assert map["format" := Regex(source, m)]["format"] == Regex(source, m);
  }

  /** Matching a value that is neither a String nor a Symbol raises. */
  lemma FormatNonString(f: Param, v: Value)
    requires ValidateParams(Format, map["format" := f]).Pass?
    requires !v.Nil? && !v.Str? && !v.Sym?
    ensures Check(Format, map["format" := f], [v]).Failure?
  {
    assert map["format" := f]["format"] == f;
  }

  /** The finding in format.rb:53-54: as written, `format: "alnum"` passes the
      parameter check and then rejects even a plain alphanumeric string,
      because `FORMATS["alnum"]` is nil; the corrected rule accepts it. */
  lemma FormatStringNameAsWritten()
    ensures ValidateParams(Format, map["format" := Val(Str("alnum"))]).Pass?
    ensures FormatRuleAsWritten(Val(Str("alnum")), Str("abc")) == Success(Reject("not_alnum", []))
    ensures FormatRule(Val(Str("alnum")), Str("abc")) == Success(Accept)
  {
    assert IsAlnumString("abc");
    assert "not_" + "alnum" == "not_alnum";
  }

  /** The corrected rule treats a String name exactly as the Symbol of the same
      name. */
  lemma FormatStringNameAsSymbol(name: string, v: Value)
    requires name in FORMATS
    ensures FormatRule(Val(Str(name)), v) == FormatRule(Val(Sym(name)), v)
  {
  }

  // ---------------------------------------------------------------------------
  // BooleanCoercible
  // ---------------------------------------------------------------------------

  lemma BooleanPassesExactlyLiterals(params: map<string, Param>, v: Value)
    requires !v.Nil?
    ensures Check(BooleanCoercible, params, [v]) == Success(Passed) <==>
            Downcase(ToS(v)) in ["true", "false", "0", "1"]
    ensures Check(BooleanCoercible, params, [v]) != Success(Passed) ==>
            Check(BooleanCoercible, params, [v]) ==
              Success(Failed("not_boolean", "must be one of: true, false, 1, 0"))
  {
  }

  /** Text without capitals is its own downcase. */
  lemma DowncaseNoCapitals(s: string)
    requires forall k :: 0 <= k < |s| ==> !('A' <= s[k] <= 'Z')
    ensures Downcase(s) == s
  {
  }

  /** An integer's text has no capitals. */
  lemma IntTextDowncased(i: int)
    ensures Downcase(IntToString(i)) == IntToString(i)
  {
    var s := IntToString(i);
    if i < 0 {
      assert s == "-" + NatToString(-i);
      assert forall k :: 1 <= k < |s| ==> s[k] == NatToString(-i)[k - 1];
    }
    DowncaseNoCapitals(s);
  }

  /** Of the integers' texts, only "0" and "1" are boolean literals. */
  lemma IntTextLiteral(i: int)
    ensures IntToString(i) in BooleanLiterals <==> i == 0 || i == 1
  {
    var s := IntToString(i);
    if i < 0 {
      assert s[0] == '-';
    } else if i >= 10 {
      assert s == NatToString(i) && |s| >= 2 && IsDigit(s[0]);
    } else {
      assert s == [Digit(i)];
    }
  }

  /** Of the integers, exactly 0 and 1 are coercible to a boolean. */
  lemma BooleanIntegers(params: map<string, Param>, i: int)
    ensures Check(BooleanCoercible, params, [Int(i)]) == Success(Passed) <==> i == 0 || i == 1
  {
    BooleanPassesExactlyLiterals(params, Int(i));
    IntTextDowncased(i);
    IntTextLiteral(i);
  }

  /** The coercible_to_boolean_spec.rb cases, upper case included. */
  lemma BooleanUpperCaseExample(params: map<string, Param>, v: Value)
    requires v == Str("TRUE")
    ensures Check(BooleanCoercible, params, [v]) == Success(Passed)
  {
    assert Downcase("TRUE") == "true";
    BooleanPassesExactlyLiterals(params, v);
  }

  lemma BooleanRejectExample(params: map<string, Param>, v: Value)
    requires v == Str("yep")
    ensures Check(BooleanCoercible, params, [v]) ==
      Success(Failed("not_boolean", "must be one of: true, false, 1, 0"))
  {
    assert Downcase("yep") == "yep";
    BooleanPassesExactlyLiterals(params, v);
  }
}
