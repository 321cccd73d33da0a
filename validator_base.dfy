/** The validator objects of lib/vandrake/validator/base.rb: the type
    registry that maps short names to validator classes, and a validator
    instance with its `last_error` and `last_error_code` fields. */
module ValidatorBase {
  import opened Wrappers
  import opened Values
  import opened Validators

  // ---------------------------------------------------------------------------
  // The registry (`type_registry`, `inherited`, `get_class`)
  // ---------------------------------------------------------------------------

  /** `name.gsub(/^.*::/, '')`: the greedy match removes everything up to and
      including the last "::". */
  function ShortName(s: string): string
    decreases |s|
  {
    if |s| < 2 then s
    else if s[|s| - 2] == ':' && s[|s| - 1] == ':' then []
    else ShortName(s[..|s| - 1]) + [s[|s| - 1]]
  }

  /** A name without a colon is its own short name. */
  lemma {:induction false} ShortNameUnqualified(s: string)
    requires ':' !in s
    ensures ShortName(s) == s
  {
    if |s| >= 2 {
      assert s[|s| - 1] in s;
      assert ':' !in s[..|s| - 1];
      ShortNameUnqualified(s[..|s| - 1]);
      assert s[..|s| - 1] + [s[|s| - 1]] == s;
    }
  }

  /** The module prefix is removed: `A::B::Name` registers as `Name`. */
  lemma {:induction false} ShortNameQualified(prefix: string, name: string)
    requires ':' !in name
    ensures ShortName(prefix + "::" + name) == name
  {
    var s := prefix + "::" + name;
    if name == [] {
      assert s[|s| - 2..] == "::";
    } else {
      var init := name[..|name| - 1];
      assert name[|name| - 1] in name;
      assert ':' !in init;
      assert s[..|s| - 1] == prefix + "::" + init;
      assert s[|s| - 1] == name[|name| - 1];
      ShortNameQualified(prefix, init);
      assert init + [name[|name| - 1]] == name;
    }
  }

  /** `get_class(type)`: the registered class for a name that responds to
      `to_sym`, nil for any other object and for an unregistered name. */
  function GetClass(types: map<string, Kind>, p: Param): (r: Option<Kind>)
    ensures r.Some? <==> SymbolName(p).Some? && SymbolName(p).value in types
    ensures r.Some? ==> r.value == types[SymbolName(p).value]
  {
    match SymbolName(p)
    case None => None
    case Some(n) => if n in types then Some(types[n]) else None
  }

  /** The fully qualified name of each built-in validator class. */
  function ClassNameOf(k: Kind): string
  {
    "Vandrake::Validator::" + KindName(k)
  }

  /** `Vandrake::Validator.type_registry`: class names by short name. */
  class TypeRegistry {
    var types: map<string, Kind>

    constructor()
      ensures types == map[]
    {
      types := map[];
    }

    /** `Base.inherited(descendant)`: registers the class under its short
        name, replacing any class registered under that name before. */
    method Inherited(className: string, k: Kind)
      modifies this
      ensures types == old(types)[ShortName(className) := k]
    {
      types := types[ShortName(className) := k];
    }

    /** Loading the eight built-in validator classes: each class definition
        calls `inherited`, in load order. */
    method RegisterBuiltins()
      modifies this
      ensures types == Registered(old(types), AllKinds)
    {
      var i := 0;
      while i < |AllKinds|
        invariant 0 <= i <= |AllKinds|
        invariant types == Registered(old(types), AllKinds[..i])
      {
        var k := AllKinds[i];
        ShortNameOfClass(k);
        Inherited(ClassNameOf(k), k);
        assert AllKinds[..i + 1][..i] == AllKinds[..i];
        i := i + 1;
      }
      assert AllKinds[..i] == AllKinds;
    }
  }

  /** The registry after `inherited` for the built-in classes `ks`, in
      order. */
  function Registered(t: map<string, Kind>, ks: seq<Kind>): map<string, Kind>
    decreases |ks|
  {
    if ks == [] then t
    else
      var k := ks[|ks| - 1];
      Registered(t, ks[..|ks| - 1])[KindName(k) := k]
  }

  lemma ShortNameOfClass(k: Kind)
    ensures ShortName(ClassNameOf(k)) == KindName(k)
  {
    KindNamesDistinct();
    ShortNameQualified("Vandrake::Validator", KindName(k));
    assert "Vandrake::Validator" + "::" + KindName(k) == ClassNameOf(k);
  }

  /** Each registered class is found under its short name. */
  lemma {:induction false} RegisteredFinds(t: map<string, Kind>, ks: seq<Kind>, k: Kind)
    requires k in ks
    ensures GetClass(Registered(t, ks), Val(Sym(KindName(k)))) == Some(k)
  {
    var last := ks[|ks| - 1];
    if last != k {
      KindNamesDistinct();
      RegisteredFinds(t, ks[..|ks| - 1], k);
    }
  }

  /** Registration adds exactly the classes' short names ... */
  lemma {:induction false} RegisteredKeys(t: map<string, Kind>, ks: seq<Kind>)
    ensures Registered(t, ks).Keys == t.Keys + set k | k in ks :: KindName(k)
  {
    if ks != [] {
      var init := ks[..|ks| - 1];
      RegisteredKeys(t, init);
      assert ks == init + [ks[|ks| - 1]];
      assert (set k | k in ks :: KindName(k)) == (set k | k in init :: KindName(k)) + {KindName(ks[|ks| - 1])};
    }
  }

  /** ... and leaves every other name as it was. */
  lemma {:induction false} RegisteredKeeps(t: map<string, Kind>, ks: seq<Kind>, n: string)
    requires n in t && forall k :: k in ks ==> KindName(k) != n
    ensures n in Registered(t, ks) && Registered(t, ks)[n] == t[n]
  {
    if ks != [] {
      var init := ks[..|ks| - 1];
      assert forall k :: k in init ==> k in ks;
      assert ks[|ks| - 1] in ks;
      RegisteredKeeps(t, init, n);
    }
  }

  /** What loading the library leaves in the registry. */
  lemma BuiltinsRegistered(t: map<string, Kind>)
    ensures forall k: Kind :: GetClass(Registered(t, AllKinds), Val(Sym(KindName(k)))) == Some(k)
    ensures Registered(t, AllKinds).Keys == t.Keys + BuiltinNames()
    ensures forall n :: n in t && n !in BuiltinNames() ==> Registered(t, AllKinds)[n] == t[n]
  {
    forall k: Kind ensures GetClass(Registered(t, AllKinds), Val(Sym(KindName(k)))) == Some(k) {
      AllKindsComplete(k);
      RegisteredFinds(t, AllKinds, k);
    }
    RegisteredKeys(t, AllKinds);
    forall n | n in t && n !in BuiltinNames() ensures Registered(t, AllKinds)[n] == t[n] {
      RegisteredKeeps(t, AllKinds, n);
    }
  }

  /** The built-in validators. The order does not matter: their registry names
      are distinct (KindNamesDistinct). */
  const AllKinds: seq<Kind> :=
    [Presence, Absence, Length, Inclusion, Exclusion, ValueMatch, Format, BooleanCoercible]

  lemma AllKindsComplete(k: Kind)
    ensures k in AllKinds
  {
  }

  function BuiltinNames(): set<string>
  {
    set k | k in AllKinds :: KindName(k)
  }

  /** The length and first letter of a validator's name. */
  function NameTag(k: Kind): (nat, char)
  {
    (|KindName(k)|, KindName(k)[0])
  }

  lemma NameTagInjective(k1: Kind, k2: Kind)
    ensures NameTag(k1) == NameTag(k2) ==> k1 == k2
  {
  }

  /** Distinct validator classes have distinct short names, none with a
      colon in it. */
  lemma KindNamesDistinct()
    ensures forall k1: Kind, k2: Kind :: KindName(k1) == KindName(k2) ==> k1 == k2
    ensures forall k: Kind :: ':' !in KindName(k)
  {
    forall k1: Kind, k2: Kind ensures KindName(k1) == KindName(k2) ==> k1 == k2 {
      NameTagInjective(k1, k2);
    }
  }

  // ---------------------------------------------------------------------------
  // A validator instance (`Base#initialize`, `validate`, `set_error`)
  // ---------------------------------------------------------------------------

  class Validator {
    const kind: Kind
    const params: map<string, Param>
    var lastError: Option<string>
    var lastErrorCode: Option<string>

    /** `initialize(params)` on parameters `validate_params` accepts. */
    constructor(k: Kind, p: map<string, Param>)
      requires ValidateParams(k, p).Pass?
      ensures kind == k && params == p
      ensures lastError == None && lastErrorCode == None
    {
      kind := k;
      params := p;
      lastError := None;
      lastErrorCode := None;
    }

    /** `reset_last_error`. */
    method ResetLastError()
      modifies this
      ensures lastError == None && lastErrorCode == None
    {
      lastError := None;
      lastErrorCode := None;
    }

    /** `set_error(code, *args)`: an unknown code raises and leaves both fields
        as they were; otherwise both are set. */
    method SetError(code: string, args: seq<string>) returns (r: Outcome<string>)
      modifies this
      ensures Render(kind, code, args).Failure? ==>
        r == Fail(Render(kind, code, args).error)
        && lastError == old(lastError) && lastErrorCode == old(lastErrorCode)
      ensures Render(kind, code, args).Success? ==>
        r == Pass && Render(kind, code, args).value.Failed?
        && lastErrorCode == Some(code) && lastError == Some(Render(kind, code, args).value.message)
    {
      var table := ErrorCodes(kind);
      if code !in table {
        return Fail("Unknown error code " + code + " for validator Vandrake::Validator::" + KindName(kind));
      }
      var message := table[code];
      if args != [] {
        var filled := Fill(message, args);
        if filled.Failure? {
          return Fail(filled.error);
        }
        message := filled.value;
      }
      lastError := Some(message);
      lastErrorCode := Some(code);
      r := Pass;
    }

    /** `validate(*values)`: reset both fields, check the arity, run the rule.
        On success both fields are nil; on failure both are set to what
        `Check` reports; when anything raises both stay nil. */
    method Validate(values: seq<Value>) returns (r: Result<bool, string>)
      requires ValidateParams(kind, params).Pass?
      modifies this
      ensures Check(kind, params, values) == Success(Passed) ==>
        r == Success(true) && lastError == None && lastErrorCode == None
      ensures Check(kind, params, values).Success? && Check(kind, params, values).value.Failed? ==>
        r == Success(false)
        && lastErrorCode == Some(Check(kind, params, values).value.code)
        && lastError == Some(Check(kind, params, values).value.message)
      ensures Check(kind, params, values).Failure? ==>
        r == Failure(Check(kind, params, values).error) && lastError == None && lastErrorCode == None
    {
      ResetLastError();
      if |values| != Inputs(kind) {
        return Failure(ArityMessage(kind, |values|));
      }
      r := RunValidator(values);
    }

    /** `run_validator(*values)` of the validator's class, then `set_error`
        on a rejection; a rule that raises leaves both fields alone. */
    method RunValidator(values: seq<Value>) returns (r: Result<bool, string>)
      requires ValidateParams(kind, params).Pass? && |values| == Inputs(kind)
      modifies this
      ensures Decide(kind, params, values).Failure? ==>
        r == Failure(Decide(kind, params, values).error) && lastError == old(lastError) && lastErrorCode == old(lastErrorCode)
      ensures Decide(kind, params, values) == Success(Accept) ==>
        r == Success(true) && lastError == old(lastError) && lastErrorCode == old(lastErrorCode)
      ensures Decide(kind, params, values).Success? && Decide(kind, params, values).value.Reject? ==>
        var d := Decide(kind, params, values).value;
        (Render(kind, d.code, d.args).Failure? ==>
           r == Failure(Render(kind, d.code, d.args).error) && lastError == old(lastError) && lastErrorCode == old(lastErrorCode))
        && (Render(kind, d.code, d.args).Success? ==>
           r == Success(false) && lastErrorCode == Some(d.code)
           && lastError == Some(Render(kind, d.code, d.args).value.message))
    {
      var decision := Decide(kind, params, values);
      if decision.Failure? {
        return Failure(decision.error);
      }
      match decision.value {
        case Accept =>
          r := Success(true);
        case Reject(code, args) =>
          var outcome := SetError(code, args);
          if outcome.Fail? {
            r := Failure(outcome.error);
          } else {
            r := Success(false);
          }
      }
    }
  }

  /** `Validator.new(params)`: the parameter check raises before the instance
      exists. */
  method NewValidator(k: Kind, p: map<string, Param>) returns (r: Result<Validator, string>)
    ensures ValidateParams(k, p).Fail? ==> r == Failure(ValidateParams(k, p).error)
    ensures ValidateParams(k, p).Pass? ==>
      r.Success? && fresh(r.value) && r.value.kind == k && r.value.params == p
      && r.value.lastError == None && r.value.lastErrorCode == None
  {
    var checked := ValidateParams(k, p);
    if checked.Fail? {
      return Failure(checked.error);
    }
    var v := new Validator(k, p);
    r := Success(v);
  }
}
