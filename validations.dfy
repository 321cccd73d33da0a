/** The host side of lib/vandrake/validations.rb: the model class with its
    main validation chain and the attribute chain that collects the
    validations generated for each key definition, and the model instance
    with its report and its `validated` flag. */
module Validations {
  import opened Wrappers
  import opened Values
  import opened Vandrake
  import opened Validators
  import opened ValidatorProperties
  import opened Failures
  import opened ValidatorBase
  import opened SingleValidation
  import opened Chains

  // ---------------------------------------------------------------------------
  // Key definitions (`create_validations_for`)
  // ---------------------------------------------------------------------------

  /** A key definition: its name, whether it is required, and its params. */
  datatype Key = Key(name: string, required: bool, params: map<string, Param>)

  /** `if key_params[p]`: the parameter is given and truthy. */
  predicate Given(params: map<string, Param>, p: string)
  {
    p in params && Truthy(params[p])
  }

  /** One `validate validator, *args` call of the block, the validator named
      by its symbol. */
  datatype Call = Call(kind: Kind, args: seq<Param>)
  {
    function Validator(): Param
    {
      Val(Sym(KindName(kind)))
    }
  }

  /** `validate v, key_name, p: key_params[p] if key_params[p]`. */
  function ParamCall(key: Key, validator: Kind, p: string): seq<Call>
  {
    if Given(key.params, p) then [Call(validator, [Val(Sym(key.name)), Hash(map[p := key.params[p]])])] else []
  }

  /** The calls the block of `create_validations_for` makes, in order. */
  function KeyCalls(key: Key): seq<Call>
  {
    (if key.required then [Call(Presence, [Val(Sym(key.name))])] else [])
    + ParamCall(key, Format, "format")
    + ParamCall(key, Length, "length")
    + ParamCall(key, Inclusion, "in")
    + ParamCall(key, Exclusion, "not_in")
  }

  /** The params of the key's chain: none for a required key, an
      `:if_present` guard on the key otherwise. */
  function KeySettings(key: Key): Settings
  {
    if key.required then SettingsOf(map[]) else SettingsOf(map["if_present" := Val(Sym(key.name))])
  }

  /** The validations the calls build, or the first construction error. */
  function BuildCalls(types: map<string, Kind>, calls: seq<Call>): (r: Result<seq<Item>, string>)
    ensures r.Success? ==> |r.value| == |calls|
    ensures r.Success? ==> forall k :: 0 <= k < |calls| ==>
      Build(types, calls[k].Validator(), calls[k].args).Success?
      && r.value[k] == Leaf(Build(types, calls[k].Validator(), calls[k].args).value)
  {
    if calls == [] then Success([])
    else
      match Build(types, calls[0].Validator(), calls[0].args)
      case Failure(e) => Failure(e)
      case Success(v) =>
        match BuildCalls(types, calls[1..])
        case Failure(e) => Failure(e)
        case Success(rest) =>
          assert forall k :: 1 <= k < |calls| ==> calls[k] == calls[1..][k - 1];
          Success([Leaf(v)] + rest)
  }

  function Prepended(items: seq<Item>, r: Result<seq<Item>, string>): Result<seq<Item>, string>
  {
    match r
    case Success(rest) => Success(items + rest)
    case Failure(e) => Failure(e)
  }

  lemma PrependedTwice(a: seq<Item>, b: seq<Item>, r: Result<seq<Item>, string>)
    ensures Prepended(a, Prepended(b, r)) == Prepended(a + b, r)
  {
    if r.Success? {
      assert a + (b + r.value) == (a + b) + r.value;
    }
  }

  /** The chain `create_validations_for` adds for a key. */
  function KeyChain(types: map<string, Kind>, key: Key): Result<Item, string>
  {
    SubChain(KeySettings(key), BuildCalls(types, KeyCalls(key)))
  }

  /** A sub-chain with settings `s` holding what was built, or the error. */
  function SubChain(s: Settings, built: Result<seq<Item>, string>): Result<Item, string>
  {
    match built
    case Failure(e) => Failure(e)
    case Success(items) => Success(Sub(Chain(s.continueOnFailure, ConditionsFor(s), items)))
  }

  /** A required key's chain has no conditions and starts with Presence on the
      key; an optional key's chain is guarded by one `:if_present` condition
      on the key. Neither continues on failure. */
  lemma KeySettingsShape(key: Key)
    ensures !KeySettings(key).continueOnFailure
    ensures key.required ==> ConditionsFor(KeySettings(key)) == []
    ensures key.required ==> KeyCalls(key)[0] == Call(Presence, [Val(Sym(key.name))])
    ensures !key.required ==> ConditionsFor(KeySettings(key)) == [Condition(IfPresent, Val(Sym(key.name)))]
  {
    ConditionsOrder(KeySettings(key));
    if !key.required {
      assert KeySettings(key).present == [Val(Sym(key.name))];
    }
  }

  /** Format, Length, Inclusion and Exclusion follow, in that order, each
      exactly when its parameter is given. */
  lemma KeyCallsOrder(key: Key)
    ensures var pre := if key.required then 1 else 0;
      KeyCalls(key)[pre..] ==
        ParamCall(key, Format, "format") + ParamCall(key, Length, "length")
        + ParamCall(key, Inclusion, "in") + ParamCall(key, Exclusion, "not_in")
    ensures |KeyCalls(key)| ==
      (if key.required then 1 else 0) + (if Given(key.params, "format") then 1 else 0)
      + (if Given(key.params, "length") then 1 else 0) + (if Given(key.params, "in") then 1 else 0)
      + (if Given(key.params, "not_in") then 1 else 0)
  {
  }

  /** With the built-in validators registered, every key's chain builds. */
  lemma KeyChainBuilds(key: Key)
    ensures KeyChain(Registered(map[], AllKinds), key).Success?
  {
    var types := Registered(map[], AllKinds);
    BuiltinsRegistered(map[]);
    var calls := KeyCalls(key);
    forall k | 0 <= k < |calls|
      ensures Build(types, calls[k].Validator(), calls[k].args).Success?
    {
      CallBuilds(types, key, calls[k]);
    }
    BuildCallsSucceeds(types, calls);
  }

  lemma CallBuilds(types: map<string, Kind>, key: Key, c: Call)
    requires forall k: Kind :: GetClass(types, Val(Sym(KindName(k)))) == Some(k)
    requires c in KeyCalls(key)
    ensures Build(types, c.Validator(), c.args).Success?
  {
    assert c.kind != ValueMatch;
    assert c.args == [Val(Sym(key.name))] || (|c.args| == 2 && c.args[0] == Val(Sym(key.name)) && c.args[1].Hash?);
    assert ExtractParams(c.args).0 == [Val(Sym(key.name))];
  }

  lemma {:induction false} BuildCallsSucceeds(types: map<string, Kind>, calls: seq<Call>)
    requires forall k :: 0 <= k < |calls| ==> Build(types, calls[k].Validator(), calls[k].args).Success?
    ensures BuildCalls(types, calls).Success?
  {
    if calls != [] {
      assert forall k :: 1 <= k < |calls| ==> calls[k] == calls[1..][k - 1];
      BuildCallsSucceeds(types, calls[1..]);
    }
  }

  /** An optional key whose value is missing or empty is skipped: its chain
      answers true and reports nothing. */
  lemma OptionalKeySkipped(types: map<string, Kind>, key: Key, rec: Record, rep: Report)
    requires !key.required && KeyChain(types, key).Success?
    requires Read(rec, key.name).Nil? || Values.IsEmpty(Read(rec, key.name))
    ensures RunItem(KeyChain(types, key).value, rec, rep) == (Done(true), rep)
  {
    KeySettingsShape(key);
    var c := KeyChain(types, key).value.chain;
    assert !ConditionHolds(c.conditions[0], rec);
  }

  /** A required key that is missing fails on Presence alone: nothing after it
      runs. */
  lemma RequiredKeyMissing(types: map<string, Kind>, key: Key, rec: Record, rep: Report)
    requires key.required && KeyChain(types, key).Success?
    requires "Presence" in types && types["Presence"] == Presence
    requires key.name !in rec.typed
    ensures RunItem(KeyChain(types, key).value, rec, rep)
      == (Done(false), Appended(rep, [key.name], "Presence", "must be provided", Some("missing")))
  {
    KeySettingsShape(key);
    var c := KeyChain(types, key).value.chain;
    var first := c.items[0].validation;
    assert first == Build(types, Val(Sym("Presence")), [Val(Sym(key.name))]).value;
    PresenceOnMissing(first, key.name, rec, rep);
    PresenceOnMissing(first, key.name, rec, Empty());
    StopsAtFirstFailure(c, rec, rep, 0);
  }

  lemma PresenceOnMissing(v: Validation, name: string, rec: Record, rep: Report)
    requires v == Validation("Presence", Presence, [name], v.params) && name !in rec.typed
    ensures RunItem(Leaf(v), rec, rep) == (Done(false), Appended(rep, [name], "Presence", "must be provided", Some("missing")))
  {
    assert ReadValues(v, rec) == [Nil];
    PresenceMissing(v.params);
  }

  // ---------------------------------------------------------------------------
  // The model class (`validation_chain`, `attribute_chain`)
  // ---------------------------------------------------------------------------

  class ModelClass {
    const types: map<string, Kind>
    /** The main chain's items, with the attribute chain at `attributeAt`. */
    var mainItems: seq<Item>
    var attributeAt: Option<nat>
    /** The attribute chain's items: the chain object is shared with the main
        chain, so what is added to it shows there too. */
    var attributeItems: seq<Item>

    predicate Valid()
      reads this
    {
      attributeAt.Some? ==> attributeAt.value < |mainItems|
    }

    /** `validation_chain`: a chain with default settings, the attribute
        chain's current contents in its slot. */
    function ValidationChain(): Chain
      reads this
      requires Valid()
    {
      var items :=
        if attributeAt.Some? then mainItems[attributeAt.value := Sub(Chain(true, [], attributeItems))]
        else mainItems;
      Chain(false, [], items)
    }

    constructor(registry: map<string, Kind>)
      ensures types == registry && mainItems == [] && attributeAt == None && attributeItems == []
      ensures Valid()
    {
      types := registry;
      mainItems := [];
      attributeAt := None;
      attributeItems := [];
    }

    /** `attribute_chain`: created on first use with `continue_on_failure:
        true` and appended to the main chain; the same chain afterwards. */
    method AttributeChain()
      requires Valid()
      modifies this
      ensures Valid() && attributeAt.Some?
      ensures old(attributeAt).None? ==>
        attributeAt == Some(|old(mainItems)|) && mainItems == old(mainItems) + [Sub(Chain(true, [], []))]
        && attributeItems == []
      ensures old(attributeAt).Some? ==>
        attributeAt == old(attributeAt) && mainItems == old(mainItems) && attributeItems == old(attributeItems)
    {
      if attributeAt.None? {
        attributeAt := Some(|mainItems|);
        mainItems := mainItems + [Sub(Chain(true, [], []))];
        attributeItems := [];
      }
    }

    /** `validate(validator, *args)`, proxied to the main chain. */
    method Validate(validator: Param, args: seq<Param>) returns (r: Result<Item, string>)
      requires Valid()
      modifies this
      ensures Valid() && attributeAt == old(attributeAt) && attributeItems == old(attributeItems)
      ensures Build(types, validator, args).Failure? ==>
        r == Failure(Build(types, validator, args).error) && mainItems == old(mainItems)
      ensures Build(types, validator, args).Success? ==>
        r == Success(Leaf(Build(types, validator, args).value)) && mainItems == old(mainItems) + [r.value]
    {
      var built := NewValidation(types, validator, args);
      if built.Failure? {
        return Failure(built.error);
      }
      r := Success(Leaf(built.value));
      mainItems := mainItems + [r.value];
    }

    /** `chain(params, &block)`, proxied to the main chain. */
    method ChainWith(params: map<string, Param>, body: seq<Item>) returns (r: Item)
      requires Valid()
      modifies this
      ensures Valid() && attributeAt == old(attributeAt) && attributeItems == old(attributeItems)
      ensures r == Sub(Chain(SettingsOf(params).continueOnFailure, ConditionsFor(SettingsOf(params)), body))
      ensures mainItems == old(mainItems) + [r]
    {
      var s := SettingsOf(params);
      r := Sub(Chain(s.continueOnFailure, ConditionsFor(s), body));
      mainItems := mainItems + [r];
    }

    /** `if_present(params = {}, &block)` and `if_absent(params = {},
        &block)`: the class-level proxies take one optional argument and pass
        it on as the chain method's only argument. */
    method IfCondition(p: Polarity, arg: Option<Param>, body: seq<Item>) returns (r: Item)
      requires Valid()
      modifies this
      ensures Valid() && attributeAt == old(attributeAt) && attributeItems == old(attributeItems)
      ensures var (attributes, params) := ExtractParams(ProxyArgs(arg));
        var s := MergedSettings(p, attributes, params);
        r == Sub(Chain(s.continueOnFailure, ConditionsFor(s), body))
      ensures mainItems == old(mainItems) + [r]
    {
      var extracted := ExtractParams(ProxyArgs(arg));
      var s := MergedSettings(p, extracted.0, extracted.1);
      r := Sub(Chain(s.continueOnFailure, ConditionsFor(s), body));
      mainItems := mainItems + [r];
    }

    /** `create_validations_for(key)`: the attribute chain gets one new chain
        for the key, built by the block's `validate` calls; a construction
        error raises before that chain is added. */
    method CreateValidationsFor(key: Key) returns (r: Outcome<string>)
      requires Valid()
      modifies this
      ensures Valid() && attributeAt.Some?
      ensures old(attributeAt).Some? ==> attributeAt == old(attributeAt) && mainItems == old(mainItems)
      ensures old(attributeAt).None? ==>
        attributeAt == Some(|old(mainItems)|) && mainItems == old(mainItems) + [Sub(Chain(true, [], []))]
      ensures var before := if old(attributeAt).Some? then old(attributeItems) else [];
        match KeyChain(types, key)
        case Failure(e) => r == Fail(e) && attributeItems == before
        case Success(item) => r == Pass && attributeItems == before + [item]
    {
      AttributeChain();
      var built := NewKeyChain(types, KeySettings(key), KeyCalls(key));
      if built.Failure? {
        return Fail(built.error);
      }
      attributeItems := attributeItems + [built.value];
      r := Pass;
    }
  }

  /** The argument list the class-level `if_present`/`if_absent` pass on:
      the caller's one argument, or the default `{}`. */
  function ProxyArgs(arg: Option<Param>): (r: seq<Param>)
    ensures |r| == 1
    ensures arg.Some? ==> r == [arg.value]
    ensures arg.None? ==> r == [Hash(map[])]
  {
    if arg.Some? then [arg.value] else [Hash(map[])]
  }

  /** Through the class-level proxy, no argument gives a chain with no
      condition at all, a symbol one condition on that attribute, and an
      options Hash the settings it spells out itself. */
  lemma ProxyConditions(p: Polarity, arg: Option<Param>)
    ensures var (attributes, params) := ExtractParams(ProxyArgs(arg));
      var s := MergedSettings(p, attributes, params);
      (arg.None? ==> ConditionsFor(s) == [] && !s.continueOnFailure)
      && (arg.Some? && !arg.value.Hash? ==> ConditionsFor(s) == [Condition(p, arg.value)] && !s.continueOnFailure)
      && (arg.Some? && arg.value.Hash? ==> s == MergedSettings(p, [], arg.value.entries))
  {
    var (attributes, params) := ExtractParams(ProxyArgs(arg));
    ConditionsOrder(MergedSettings(p, attributes, params));
  }

  /** The block of `create_validations_for`: a new chain with settings `s` on
      which the calls run in order; the first construction error raises. */
  method NewKeyChain(types: map<string, Kind>, s: Settings, calls: seq<Call>) returns (r: Result<Item, string>)
    ensures r == SubChain(s, BuildCalls(types, calls))
  {
    var sub := new ValidationChain(s);
    var i := 0;
    assert calls[0..] == calls;
    assert Prepended([], BuildCalls(types, calls)) == BuildCalls(types, calls) by {
      assert forall items: seq<Item> :: [] + items == items;
    }
    while i < |calls|
      invariant 0 <= i <= |calls|
      invariant BuildCalls(types, calls) == Prepended(sub.items, BuildCalls(types, calls[i..]))
      invariant sub.continueOnFailure == s.continueOnFailure && sub.conditions == ConditionsFor(s)
    {
      assert calls[i..][1..] == calls[i + 1..];
      ghost var before := sub.items;
      var added := sub.Validate(types, calls[i].Validator(), calls[i].args);
      if added.Failure? {
        return Failure(added.error);
      }
      assert BuildCalls(types, calls[i..]) == Prepended([added.value], BuildCalls(types, calls[i + 1..]));
      PrependedTwice(before, [added.value], BuildCalls(types, calls[i + 1..]));
      i := i + 1;
    }
    assert calls[i..] == [];
    assert sub.items + [] == sub.items;
    r := Success(Sub(sub.Value()));
  }

  // ---------------------------------------------------------------------------
  // The model instance (`valid?`, `run_validations`)
  // ---------------------------------------------------------------------------

  class ModelInstance {
    var record: Record
    const failedValidators: FailedValidators
    var validated: bool

    predicate Valid()
      reads this, failedValidators
    {
      failedValidators.Valid()
    }

    constructor(r: Record)
      ensures record == r && !validated && Failures.IsEmpty(failedValidators.failed) && Valid()
      ensures fresh(failedValidators)
    {
      record := r;
      failedValidators := new FailedValidators();
      validated := false;
    }

    /** `reset_validated`. */
    method ResetValidated()
      modifies this
      ensures !validated && record == old(record)
    {
      validated := false;
    }

    /** `run_validations`: clear the report, run the main chain, mark the
        instance validated; a raise leaves it unvalidated. */
    method RunValidations(chain: Chain) returns (r: RunResult)
      requires Valid()
      modifies this, failedValidators
      ensures Valid() && record == old(record)
      ensures (r, failedValidators.failed) == RunChain(chain, record, Empty())
      ensures validated == (r.Done? || old(validated))
    {
      failedValidators.Clear();
      r := ExecuteChain(chain, record, failedValidators);
      if r.Done? {
        validated := true;
      }
    }

    /** `valid?`: run the validations unless already validated, then answer
        whether the report is empty. */
    method IsValid(chain: Chain) returns (r: Result<bool, string>)
      requires Valid()
      modifies this, failedValidators
      ensures Valid() && record == old(record)
      ensures old(validated) ==>
        r == Success(Failures.IsEmpty(failedValidators.failed)) && failedValidators.failed == old(failedValidators.failed)
        && validated
      ensures !old(validated) ==>
        failedValidators.failed == RunChain(chain, record, Empty()).1
        && validated == RunChain(chain, record, Empty()).0.Done?
        && match RunChain(chain, record, Empty()).0
           case Raised(e) => r == Failure(e)
           case Done(ok) => r == Success(ok)
    {
      if !validated {
        var outcome := RunValidations(chain);
        if outcome.Raised? {
          return Failure(outcome.error);
        }
        RunFromEmpty(chain, record);
      }
      r := Success(Failures.IsEmpty(failedValidators.failed));
    }
  }

  /** A run from an empty report leaves it empty exactly when it answers
      true. */
  lemma RunFromEmpty(c: Chain, rec: Record)
    ensures RunChain(c, rec, Empty()).0.Done? ==>
      (Failures.IsEmpty(RunChain(c, rec, Empty()).1) <==> RunChain(c, rec, Empty()).0 == Done(true))
  {
    ChainPassKeepsReport(c, rec, Empty());
    if RunChain(c, rec, Empty()).0 == Done(false) {
      ChainFailureReported(c, rec, Empty());
    }
  }
}
