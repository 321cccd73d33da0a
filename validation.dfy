/** A validation of lib/vandrake/validation.rb: one validator bound to one or
    more attribute names of a host record, with the validator's parameters.
    Building one checks the names; running one reads the attributes, asks
    the validator, and files one failure in the record's report when the
    validator rejects. */
module SingleValidation {
  import opened Wrappers
  import opened Values
  import opened Vandrake
  import opened Validators
  import opened Failures
  import opened ValidatorBase

  /** A host record: `read_attribute` answers an attribute's type-cast value,
      the raw read the value as it was assigned. An attribute that was never
      set reads as nil either way. */
  datatype Record = Record(typed: map<string, Value>, raw: map<string, Value>)

  function Read(rec: Record, name: string): Value
  {
    if name in rec.typed then rec.typed[name] else Nil
  }

  function ReadRaw(rec: Record, name: string): Value
  {
    if name in rec.raw then rec.raw[name] else Nil
  }

  /** `validator_name`, `validator_class`, `attributes` and `params`. */
  datatype Validation = Validation(
    validatorName: string, kind: Kind, attributes: seq<string>, params: map<string, Param>)

  // ---------------------------------------------------------------------------
  // Construction (`initialize`)
  // ---------------------------------------------------------------------------

  function NameMessage(validator: Param): string
  {
    "Validator name should be provided as a Symbol, " + ClassName(validator) + " given"
  }

  function AttributeMessage(attribute: Param): string
  {
    "Attribute name has to be a Symbol, " + ClassName(attribute) + " given"
  }

  /** `@attributes.map!` with `to_sym`: the names of all the arguments, or the
      error raised for the first argument without `to_sym`. */
  function Symbolized(attrs: seq<Param>): (r: Result<seq<string>, string>)
    ensures r.Success? <==> forall k :: 0 <= k < |attrs| ==> SymbolName(attrs[k]).Some?
    ensures r.Success? ==>
      |r.value| == |attrs| && forall k :: 0 <= k < |attrs| ==> SymbolName(attrs[k]) == Some(r.value[k])
    ensures r.Failure? ==>
      exists k :: 0 <= k < |attrs| && SymbolName(attrs[k]).None? && r.error == AttributeMessage(attrs[k])
                  && forall j :: 0 <= j < k ==> SymbolName(attrs[j]).Some?
  {
    if attrs == [] then Success([])
    else
      match SymbolName(attrs[0])
      case None => Failure(AttributeMessage(attrs[0]))
      case Some(n) =>
        match Symbolized(attrs[1..])
        case Failure(e) =>
          ghost var k :| 0 <= k < |attrs[1..]| && SymbolName(attrs[1..][k]).None? && e == AttributeMessage(attrs[1..][k])
                         && forall j :: 0 <= j < k ==> SymbolName(attrs[1..][j]).Some?;
          assert forall j :: 0 <= j < k + 1 ==> SymbolName(attrs[j]).Some? by {
            forall j | 0 <= j < k + 1 ensures SymbolName(attrs[j]).Some? {
              if j > 0 { assert attrs[j] == attrs[1..][j - 1]; }
            }
          }
          assert attrs[k + 1] == attrs[1..][k];
          Failure(e)
        case Success(ns) =>
          assert forall k :: 1 <= k < |attrs| ==> attrs[k] == attrs[1..][k - 1];
          Success([n] + ns)
  }

  /** `Validation.new(validator, *args)` as the source builds it: the name
      check, the registry lookup, then the attribute names. The number of
      attributes is not compared with the validator's arity. */
  function BuildAsWritten(types: map<string, Kind>, validator: Param, args: seq<Param>): (r: Result<Validation, string>)
    ensures SymbolName(validator).None? ==> r == Failure(NameMessage(validator))
    ensures SymbolName(validator).Some? && SymbolName(validator).value !in types ==>
      r == Failure("Unknown validator: " + SymbolName(validator).value)
    ensures r.Success? <==>
      GetClass(types, validator).Some? && Symbolized(ExtractParams(args).0).Success?
    ensures r.Success? ==>
      var attrs := ExtractParams(args).0;
      r.value.validatorName == SymbolName(validator).value
      && r.value.kind == types[r.value.validatorName]
      && r.value.params == ExtractParams(args).1
      && |r.value.attributes| == |attrs|
      && forall k :: 0 <= k < |attrs| ==> SymbolName(attrs[k]) == Some(r.value.attributes[k])
  {
    match SymbolName(validator)
    case None => Failure(NameMessage(validator))
    case Some(name) =>
      if name !in types then Failure("Unknown validator: " + name)
      else
        var (attrs, params) := ExtractParams(args);
        match Symbolized(attrs)
        case Failure(e) => Failure(e)
        case Success(names) => Success(Validation(name, types[name], names, params))
  }

  /** The construction the engine's own description asks for: as above, and
      then an attribute count that differs from the validator's arity is a
      construction error. */
  function Build(types: map<string, Kind>, validator: Param, args: seq<Param>): (r: Result<Validation, string>)
    ensures r.Success? ==>
      r == BuildAsWritten(types, validator, args) && |r.value.attributes| == Inputs(r.value.kind)
    ensures r.Failure? ==>
      r == BuildAsWritten(types, validator, args)
      || (BuildAsWritten(types, validator, args).Success?
          && var v := BuildAsWritten(types, validator, args).value;
             |v.attributes| != Inputs(v.kind) && r.error == ArityMessage(v.kind, |v.attributes|))
  {
    match BuildAsWritten(types, validator, args)
    case Failure(e) => Failure(e)
    case Success(v) =>
      if |v.attributes| != Inputs(v.kind) then Failure(ArityMessage(v.kind, |v.attributes|))
      else Success(v)
  }

  /** The error `map!` raises is the one for the first argument without a
      name. */
  lemma FirstNamelessError(attrs: seq<Param>, i: nat)
    requires i < |attrs| && SymbolName(attrs[i]).None?
    requires forall k :: 0 <= k < i ==> SymbolName(attrs[k]).Some?
    ensures Symbolized(attrs) == Failure(AttributeMessage(attrs[i]))
  {
    var k :| 0 <= k < |attrs| && SymbolName(attrs[k]).None? && Symbolized(attrs).error == AttributeMessage(attrs[k])
             && forall j :: 0 <= j < k ==> SymbolName(attrs[j]).Some?;
    assert k == i;
  }

  /** `initialize`, with `map!` rewriting the attribute list in place. */
  method NewValidation(types: map<string, Kind>, validator: Param, args: seq<Param>) returns (r: Result<Validation, string>)
    ensures r == Build(types, validator, args)
  {
    if SymbolName(validator).None? {
      return Failure(NameMessage(validator));
    }
    var kind := GetClass(types, validator);
    if kind.None? {
      return Failure("Unknown validator: " + SymbolName(validator).value);
    }
    var name := SymbolName(validator).value;
    var extracted := ExtractParams(args);
    var attrs := extracted.0;
    var names: seq<string> := [];
    var i := 0;
    while i < |attrs|
      invariant 0 <= i <= |attrs| && |names| == i
      invariant forall k :: 0 <= k < i ==> SymbolName(attrs[k]) == Some(names[k])
    {
      var n := SymbolName(attrs[i]);
      if n.None? {
        FirstNamelessError(attrs, i);
        return Failure(AttributeMessage(attrs[i]));
      }
      names := names + [n.value];
      i := i + 1;
    }
    assert Symbolized(attrs).value == names;
    if |names| != Inputs(kind.value) {
      return Failure(ArityMessage(kind.value, |names|));
    }
    r := Success(Validation(name, kind.value, names, extracted.1));
  }

  // ---------------------------------------------------------------------------
  // Running (`run`)
  // ---------------------------------------------------------------------------

  /** The values passed to the validator: the raw reads for a raw validator,
      the type-cast reads for the others. */
  function ReadValues(v: Validation, rec: Record): (r: seq<Value>)
    ensures |r| == |v.attributes|
    ensures forall k :: 0 <= k < |r| ==>
      r[k] == if IsRaw(v.kind) then ReadRaw(rec, v.attributes[k]) else Read(rec, v.attributes[k])
  {
    seq(|v.attributes|, k requires 0 <= k < |v.attributes| =>
      if IsRaw(v.kind) then ReadRaw(rec, v.attributes[k]) else Read(rec, v.attributes[k]))
  }

  /** `@attributes.collect {|a| document.read_attribute(a) }`: the type-cast
      reads, whatever the validator's `raw?` says. */
  function ReadValuesAsWritten(v: Validation, rec: Record): (r: seq<Value>)
    ensures |r| == |v.attributes|
    ensures forall k :: 0 <= k < |r| ==> r[k] == Read(rec, v.attributes[k])
  {
    seq(|v.attributes|, k requires 0 <= k < |v.attributes| => Read(rec, v.attributes[k]))
  }

  /** How a run ends: with `run`'s boolean, or with the error it raised. */
  datatype RunResult = Done(success: bool) | Raised(error: string)

  /** A run on given values: a fresh validator instance validates them; when
      it rejects, one entry with the validator name, `last_error` and
      `last_error_code` is added to the report. */
  function RunOn(v: Validation, values: seq<Value>, rep: Report): (r: (RunResult, Report))
    ensures r.0 == Done(true) <==> Check(v.kind, v.params, values) == Success(Passed)
    ensures r.0.Raised? <==> Check(v.kind, v.params, values).Failure?
    ensures r.0 != Done(false) ==> r.1 == rep
    ensures r.0 == Done(false) ==>
      var f := Check(v.kind, v.params, values).value;
      f.Failed? && r.1 == Appended(rep, v.attributes, v.validatorName, f.message, Some(f.code))
  {
    match Check(v.kind, v.params, values)
    case Failure(e) => (Raised(e), rep)
    case Success(Passed) => (Done(true), rep)
    case Success(Failed(code, message)) =>
      (Done(false), Appended(rep, v.attributes, v.validatorName, message, Some(code)))
  }

  /** `run(document)` on a record whose report is `rep`, with the validator
      instance-scoped and the raw flag honoured. */
  function Run(v: Validation, rec: Record, rep: Report): (RunResult, Report)
  {
    RunOn(v, ReadValues(v, rec), rep)
  }

  /** `run(document)` as the source calls the validator: `validate` on the
      validator class, which defines no such class method. */
  function RunAsWritten(v: Validation, rec: Record, rep: Report): (r: (RunResult, Report))
    ensures r.0.Raised? && r.1 == rep
  {
    (Raised("undefined method `validate' for " + ClassNameOf(v.kind) + ":Class"), rep)
  }

  /** `run` with the validator and the record's `FailedValidators` as
      objects: a new validator instance is built and asked, and on a
      rejection its error fields go to `add`. */
  method Execute(v: Validation, rec: Record, report: FailedValidators) returns (r: RunResult)
    requires report.Valid()
    modifies report
    ensures report.Valid()
    ensures (r, report.failed) == Run(v, rec, old(report.failed))
  {
    var values := ReadValues(v, rec);
    var made := NewValidator(v.kind, v.params);
    if made.Failure? {
      return Raised(made.error);
    }
    var validator := made.value;
    var answer := validator.Validate(values);
    if answer.Failure? {
      return Raised(answer.error);
    }
    if answer.value {
      return Done(true);
    }
    report.Add(v.attributes, v.validatorName, validator.lastError.value, validator.lastErrorCode);
    r := Done(false);
  }

  // ---------------------------------------------------------------------------
  // Properties
  // ---------------------------------------------------------------------------

  /** A run keeps the report well formed and only ever adds to it. */
  lemma RunExtends(v: Validation, rec: Record, rep: Report)
    requires WellFormed(rep)
    ensures WellFormed(Run(v, rec, rep).1) && Extends(rep, Run(v, rec, rep).1)
  {
    var values := ReadValues(v, rec);
    if RunOn(v, values, rep).0 == Done(false) {
      var f := Check(v.kind, v.params, values).value;
      AppendedWellFormed(rep, v.attributes, v.validatorName, f.message, Some(f.code));
      AppendedExtends(rep, v.attributes, v.validatorName, f.message, Some(f.code));
    } else {
      ExtendsReflexive(rep);
    }
  }

  /** A failure on one attribute is filed in that attribute's list. */
  lemma RunFailureOnOneAttribute(v: Validation, rec: Record, rep: Report)
    requires |v.attributes| == 1 && Run(v, rec, rep).0 == Done(false)
    ensures var f := Check(v.kind, v.params, ReadValues(v, rec)).value;
      var s := Run(v, rec, rep).1;
      Bucket(s, Some(v.attributes[0])) == Bucket(rep, Some(v.attributes[0])) + [Entry(v.validatorName, Some(f.code), f.message)]
      && (forall k :: k != Some(v.attributes[0]) ==> Bucket(s, k) == Bucket(rep, k))
      && s.model == rep.model
  {
    var f := Check(v.kind, v.params, ReadValues(v, rec)).value;
    AppendedToAttribute(rep, v.attributes, v.validatorName, f.message, Some(f.code));
  }

  /** A failure on several attributes is filed in the model list, with all
      the attribute names. */
  lemma RunFailureOnSeveralAttributes(v: Validation, rec: Record, rep: Report)
    requires |v.attributes| > 1 && Run(v, rec, rep).0 == Done(false)
    ensures var f := Check(v.kind, v.params, ReadValues(v, rec)).value;
      var s := Run(v, rec, rep).1;
      ModelList(s) == ModelList(rep) + [ModelEntry(v.validatorName, v.attributes, Some(f.code), f.message)]
      && s.attribute == rep.attribute
  {
    var f := Check(v.kind, v.params, ReadValues(v, rec)).value;
    AppendedToModel(rep, v.attributes, v.validatorName, f.message, Some(f.code));
  }

  /** A built validation takes as many attributes as its validator, so its
      runs never raise the arity error. */
  lemma BuiltRunsHaveArity(types: map<string, Kind>, validator: Param, args: seq<Param>, rec: Record, rep: Report)
    requires Build(types, validator, args).Success?
    ensures var v := Build(types, validator, args).value;
      Run(v, rec, rep).0.Raised? <==>
        ValidateParams(v.kind, v.params).Fail?
        || Decide(v.kind, v.params, ReadValues(v, rec)).Failure?
        || (Decide(v.kind, v.params, ReadValues(v, rec)).value.Reject?
            && var d := Decide(v.kind, v.params, ReadValues(v, rec)).value;
               Render(v.kind, d.code, d.args).Failure?)
  {
  }
}
