/** The cases of spec/validation_spec.rb, and the three places where
    lib/vandrake/validation.rb departs from the validator contract of
    lib/vandrake/validator/base.rb. */
module ValidationProperties {
  import opened Wrappers
  import opened Values
  import opened Validators
  import opened ValidatorProperties
  import opened Failures
  import opened ValidatorBase
  import opened SingleValidation

  /** The registry once the library is loaded. */
  function Builtins(): map<string, Kind>
  {
    Registered(map[], AllKinds)
  }

  // ---------------------------------------------------------------------------
  // Construction errors
  // ---------------------------------------------------------------------------

  /** `Validation.new(String, :vehicle)`: a class has no `to_sym`. */
  lemma NameNotSymbolExample(validator: Param, args: seq<Param>)
    requires validator == Object("Class")
    ensures Build(Builtins(), validator, args)
      == Failure("Validator name should be provided as a Symbol, " + "Class" + " given")
  {
  }

  /** `Validation.new(:Batmobil, :vehicle)`. */
  lemma UnknownValidatorExample(validator: Param, args: seq<Param>)
    requires validator == Val(Sym("Batmobil"))
    ensures Build(Builtins(), validator, args) == Failure("Unknown validator: " + "Batmobil")
  {
    assert "Batmobil" !in BuiltinNames() by {
      forall k: Kind ensures KindName(k) != "Batmobil" {
        assert NameTag(k) != (8, 'B');
      }
    }
    RegisteredKeys(map[], AllKinds);
  }

  /** `Validation.new(:Presence, 123)`. */
  lemma AttributeNotSymbolExample(validator: Param, args: seq<Param>)
    requires validator == Val(Sym("Presence")) && args == [Val(Int(123))]
    ensures Build(Builtins(), validator, args)
      == Failure("Attribute name has to be a Symbol, " + "Fixnum" + " given")
  {
    BuiltinsRegistered(map[]);
    assert GetClass(Builtins(), Val(Sym(KindName(Presence)))) == Some(Presence);
    FirstNamelessError(args, 0);
  }

  /** `Validation.new(:Presence, :title)`: one attribute, no parameters. */
  lemma BuildPresenceExample(validator: Param, args: seq<Param>)
    requires validator == Val(Sym("Presence")) && args == [Val(Sym("title"))]
    ensures Build(Builtins(), validator, args) == Success(Validation("Presence", Presence, ["title"], map[]))
  {
    BuiltinsRegistered(map[]);
    assert GetClass(Builtins(), Val(Sym(KindName(Presence)))) == Some(Presence);
    assert Symbolized(args).value == ["title"];
  }

  /** A trailing Hash is the parameters; every other argument is an attribute,
      in order. */
  lemma BuildSplitsParams(types: map<string, Kind>, validator: Param, attrs: seq<Param>, params: map<string, Param>)
    requires BuildAsWritten(types, validator, attrs + [Hash(params)]).Success?
    ensures var v := BuildAsWritten(types, validator, attrs + [Hash(params)]).value;
      v.params == params && |v.attributes| == |attrs|
      && forall k :: 0 <= k < |attrs| ==> SymbolName(attrs[k]) == Some(v.attributes[k])
  {
    assert (attrs + [Hash(params)])[..|attrs|] == attrs;
  }

  // ---------------------------------------------------------------------------
  // Runs
  // ---------------------------------------------------------------------------

  /** Presence on a record with a title: true, and nothing reported. */
  lemma PresencePassExample(v: Validation, rec: Record)
    requires v == Validation("Presence", Presence, ["title"], map[])
    requires rec == Record(map["title" := Str("Bruce Wayne")], map[])
    ensures Run(v, rec, Empty()) == (Done(true), Empty())
  {
    assert ReadValues(v, rec) == [Str("Bruce Wayne")];
    PresencePasses(map[], Str("Bruce Wayne"));
  }

  /** Presence on an empty record: false, and the entry is filed under the
      attribute. */
  lemma PresenceFailExample(v: Validation, rec: Record)
    requires v == Validation("Presence", Presence, ["title"], map[])
    requires rec == Record(map[], map[])
    ensures Run(v, rec, Empty())
      == (Done(false), Report(Some(map[Some("title") := [Entry("Presence", Some("missing"), "must be provided")]]), None))
  {
    assert ReadValues(v, rec) == [Nil];
    PresenceMissing(map[]);
    AppendedToEmpty(["title"], "Presence", "must be provided", Some("missing"));
  }

  /** ValueMatch on two different passwords: the entry goes to the model list
      with both attribute names. */
  lemma ValueMatchFailExample(v: Validation, rec: Record)
    requires v == Validation("ValueMatch", ValueMatch, ["password", "password_confirm"], map[])
    requires rec == Record(map["password" := Str("mypass"), "password_confirm" := Str("notmypass")], map[])
    ensures Run(v, rec, Empty())
      == (Done(false), Report(None, Some([ModelEntry("ValueMatch", ["password", "password_confirm"], Some("no_match"), "must be the same")])))
  {
    assert ReadValues(v, rec) == [Str("mypass"), Str("notmypass")];
    ValueMatchFails(map[], Str("mypass"), Str("notmypass"));
    AppendedToEmpty(v.attributes, "ValueMatch", "must be the same", Some("no_match"));
  }

  /** A raw validator reads the raw value: `1` is coercible to a boolean. */
  lemma RawPassExample(v: Validation, rec: Record)
    requires v == Validation("BooleanCoercible", BooleanCoercible, ["is_batman"], map[])
    requires rec == Record(map["is_batman" := Bool(true)], map["is_batman" := Int(1)])
    ensures Run(v, rec, Empty()) == (Done(true), Empty())
  {
    assert ReadValues(v, rec) == [Int(1)];
    BooleanIntegers(map[], 1);
  }

  /** The raw value 'nope' fails although the type-cast value is nil, which
      BooleanCoercible accepts. The source reads the type-cast value for
      every validator, so it lets this record through. */
  lemma RawReadAsWritten(v: Validation, rec: Record)
    requires v == Validation("BooleanCoercible", BooleanCoercible, ["is_batman"], map[])
    requires rec == Record(map["is_batman" := Nil], map["is_batman" := Str("nope")])
    ensures Run(v, rec, Empty())
      == (Done(false), Report(Some(map[Some("is_batman") := [Entry("BooleanCoercible", Some("not_boolean"), "must be one of: true, false, 1, 0")]]), None))
    ensures RunOn(v, ReadValuesAsWritten(v, rec), Empty()) == (Done(true), Empty())
  {
    assert ReadValues(v, rec) == [Str("nope")];
    assert ReadValuesAsWritten(v, rec) == [Nil];
    assert Downcase("nope") == "nope";
    BooleanPassesExactlyLiterals(map[], Str("nope"));
    AppendedToEmpty(["is_batman"], "BooleanCoercible", "must be one of: true, false, 1, 0", Some("not_boolean"));
    NilPassesAllButPresence(BooleanCoercible, map[]);
  }

  /** The source calls `validate` on the validator class, which has no such
      method, so even the passing Presence case raises. */
  lemma ClassLevelValidateAsWritten(v: Validation, rec: Record)
    requires v == Validation("Presence", Presence, ["title"], map[])
    requires rec == Record(map["title" := Str("Bruce Wayne")], map[])
    ensures RunAsWritten(v, rec, Empty()).0
      == Raised("undefined method `validate' for " + "Vandrake::Validator::" + "Presence" + ":Class")
    ensures Run(v, rec, Empty()).0 == Done(true)
  {
    PresencePassExample(v, rec);
  }

  /** `Validation.new(:ValueMatch, :password)` is accepted by the source and
      raises the arity error only when run; the corrected construction
      refuses it. */
  lemma ArityAsWritten(validator: Param, args: seq<Param>, rec: Record, rep: Report)
    requires validator == Val(Sym("ValueMatch")) && args == [Val(Sym("password"))]
    ensures BuildAsWritten(Builtins(), validator, args) == Success(Validation("ValueMatch", ValueMatch, ["password"], map[]))
    ensures Run(BuildAsWritten(Builtins(), validator, args).value, rec, rep).0 == Raised(ArityMessage(ValueMatch, 1))
    ensures Build(Builtins(), validator, args) == Failure(ArityMessage(ValueMatch, 1))
  {
    BuiltinsRegistered(map[]);
    assert GetClass(Builtins(), Val(Sym(KindName(ValueMatch)))) == Some(ValueMatch);
    assert Symbolized(args).value == ["password"];
  }
}
