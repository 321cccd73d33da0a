# Vandrake validation engine in Dafny

Vandrake is a Ruby library that validates the attributes of a model
instance. This project models its synchronous validation engine and proves
properties about the model:

- **Validators.** Presence, Absence, Length, Inclusion, Exclusion,
  ValueMatch, Format and BooleanCoercible, each with:
  - its arity;
  - its raw flag;
  - its error table;
  - its `validate_params` check;
  - its `run_validator` rule.

  `Validators.Check(kind, params, values)` stands for
  `Validator.new(params).validate(*values)`. The stateful validator object,
  with its `last_error`/`last_error_code` fields, is the class
  `ValidatorBase.Validator`, proved against `Check`. The type registry filled
  by `inherited` is `ValidatorBase.TypeRegistry`.
- **The failure report** (`FailedValidators`). It has two buckets:
  - per-attribute lists, created lazily;
  - a model-wide list for failures on several attributes.

  It is a value (`Failures.Report`) with the operation `Appended`. The class
  `Failures.FailedValidators` changes it in place.
- **A Validation.** This is a validator bound to attribute names:
  - construction (`SingleValidation.Build`, and the imperative
    `NewValidation`);
  - its run against a record (`SingleValidation.Run`, and the imperative
    `Execute`).
- **The validation chain.** A tree of validations and sub-chains
  (`Chains.Item`):
  - guarded by Presence/Absence conditions;
  - run in order, stopping at the first failure unless it continues on
    failure.

  The pure `Chains.RunChain` is the specification. The methods
  `ExecuteChain`/`ExecuteItems` and the class `Chains.ValidationChain`,
  which builds chains in place, are proved against it.
- **The host side** (`validations.rb`):
  - the per-key chains `create_validations_for` builds;
  - the memoised attribute chain, which the main chain shares;
  - `run_validations` and `valid?` of an instance.
- **The helper `extract_params`.**

A record is two maps from attribute names to values:
- `typed` is what `read_attribute` returns;
- `raw` is what a raw read returns.

A missing attribute reads as nil. Every operation that can raise in Ruby
returns a `Result` (or an `Outcome`, or `RunResult.Raised`) that carries the
exception message.

The repository's own description and the code disagree in three places, and
the model follows the code in each:
- The Length message keeps the source's typo "Missing :legth parameter".
- A Format `:ip` pattern accepts any character but a newline as its third separator.
- An empty integer range makes Length raise, because `min`/`max` are nil.

The places where the code departs from its own contract are listed under
Findings. Where they conflict, the model uses the corrected definition and
keeps the as-written one next to it.

## Model

| member | source | states |
|---|---|---|
| Vandrake.ExtractParams | lib/vandrake.rb:57-61 | Only the last argument is examined. A trailing Hash is removed; otherwise params is `{}` and the args stay unchanged. |
| Vandrake.ExtractParamsRoundTrip | lib/vandrake.rb:57-61 | The remaining args followed by the extracted Hash give back the input. |
| Vandrake.ExtractParamsNoTrailingHash | lib/vandrake.rb:58-61 | Without a trailing Hash the result is `(args, {})`. |
| Values.SymbolName | lib/vandrake/validator/base.rb:31 | A parameter has a symbol name (`respond_to?(:to_sym)`) exactly when it is a String or a Symbol. |
| Values.ToS | lib/vandrake/validator/boolean_coercible.rb:21 | `to_s` of a value. |
| Values.Downcase | lib/vandrake/validator/boolean_coercible.rb:21 | `downcase`: the length is kept, and only capital letters change. |
| Values.Join | lib/vandrake/validator/inclusion.rb:38 | `to_a.join(', ')`. Elements render with `to_s`, and nested Arrays are joined with the same separator. Stated by ValidatorProperties.InSetText, NestedJoinExample and the set examples. |
| Values.HasLength | lib/vandrake/validator/length.rb:34 | `respond_to?(:length)` (and `:empty?`): String, Symbol and Array. |
| Values.IsEmpty | lib/vandrake/validator/presence.rb:22 | `respond_to?(:empty?) && empty?`. |
| Formats.FORMATS | lib/vandrake/validator/format.rb:8-13 | The four named formats. |
| Formats.IsEmail | lib/vandrake/validator/format.rb:9 | The `:email` pattern as a predicate on whole strings. |
| Formats.IsIp | lib/vandrake/validator/format.rb:10 | The `:ip` pattern. Stated by IpAccepts, IpRejectsThreeGroups and IpAnyThirdSeparator. |
| Formats.IsAlnumString | lib/vandrake/validator/format.rb:11 | The `:alnum` pattern. Stated by AlnumHexExamples. |
| Formats.IsHexString | lib/vandrake/validator/format.rb:12 | The `:hex` pattern. Stated by AlnumHexExamples. |
| Formats.Matches | lib/vandrake/validator/format.rb:61 | `FORMATS[name] =~ s` for a named format. |
| Formats.IpAccepts | lib/vandrake/validator/format.rb:10 | `192.168.0.100` is an ip. |
| Formats.IpRejectsThreeGroups | lib/vandrake/validator/format.rb:10 | Three groups are not an ip. |
| Formats.IpAnyThirdSeparator | lib/vandrake/validator/format.rb:10 | The unescaped third `.` accepts any character but a newline: `1.2.3x4` is an ip. |
| Formats.AlnumHexExamples | lib/vandrake/validator/format.rb:11-12 | `:alnum` and `:hex` accept and reject the format spec's strings. |
| Validators.Render | lib/vandrake/validator/base.rb:135-144 | `set_error` succeeds exactly for a code in the table whose template can be filled. It sets that code. Without arguments the message is the unfilled template. |
| Validators.FillOne | lib/vandrake/validator/base.rb:140 | `sprintf` with one `%d`/`%s` directive gives prefix + argument + suffix. |
| Validators.FillTwo | lib/vandrake/validator/base.rb:140 | `sprintf` with two `%s` directives puts both arguments in order. |
| Validators.Inputs | lib/vandrake/validator/base.rb:47 | The number of values `validate` takes: 1, or 2 for ValueMatch (value_match.rb line 11). Stated by ValidatorProperties.Defaults. |
| Validators.IsRaw | lib/vandrake/validator/base.rb:53 | `raw?`: true only for BooleanCoercible (boolean_coercible.rb line 10). Stated by ValidatorProperties.Defaults. |
| Validators.ErrorCodes | lib/vandrake/validator/base.rb:64 | Each class's `@error_codes` table, with the texts of each validator file. PresenceErrorTable and DecidedCodesAreKnown state its use. |
| Validators.Fill | lib/vandrake/validator/base.rb:140 | `sprintf` for `%d`/`%s`. Each directive takes the next rendered argument, and too few arguments raise. Stated by FillOne and FillTwo. |
| Validators.ValidateParams | lib/vandrake/validator/base.rb:150-152 | `validate_params` of each class: no check by default, and the Length, Inclusion, Exclusion and Format checks with their messages. Stated by the `*Params` lemmas. |
| Validators.PresenceRule | lib/vandrake/validator/presence.rb:18-28 | Presence's rule. Stated by PresenceMissing, PresenceEmpty and PresencePasses. |
| Validators.AbsenceRule | lib/vandrake/validator/absence.rb:17-24 | Absence's rule. Stated by AbsencePasses, AbsenceFails and AbsenceIsOppositeOfPresence. |
| Validators.LengthRule | lib/vandrake/validator/length.rb:28-47 | Length's rule, with nil `min`/`max` for an empty range. Stated by the Length lemmas. |
| Validators.Member | lib/vandrake/validator/inclusion.rb:32 | `include?`: an integer range holds its integers, an Array its elements, and a String its substrings. A String raises for a non-String. Stated by InclusionMember, ExclusionNonMember and StringCollection. |
| Validators.InclusionRule | lib/vandrake/validator/inclusion.rb:29-43 | Inclusion's rule. Stated by InclusionMember, InclusionNotInRange and InclusionNotInSet. |
| Validators.ExclusionRule | lib/vandrake/validator/exclusion.rb:30-44 | Exclusion's rule. Stated by the Exclusion lemmas and ExclusionIsOppositeOfInclusion. |
| Validators.ValueMatchRule | lib/vandrake/validator/value_match.rb:19-28 | ValueMatch's rule. Stated by ValueMatchPasses and ValueMatchFails. |
| Validators.MatchValue | lib/vandrake/validator/format.rb:61 | `regex =~ value`: a String or Symbol is matched, and anything else raises. Stated by FormatNonString. |
| Validators.FormatRule | lib/vandrake/validator/format.rb:48-67 | Format's rule with the corrected lookup of Findings row 4: the pattern is found by the format's symbol name. Stated by FormatNamedMatch, FormatNamedMismatch, FormatCustomMismatch and FormatStringNameAsSymbol. |
| Validators.FormatRuleAsWritten | lib/vandrake/validator/format.rb:53-54 | Format's rule as written, with `FORMATS[format]` keyed by the format object itself. Stated by FormatStringNameAsWritten. |
| Validators.BooleanRule | lib/vandrake/validator/boolean_coercible.rb:18-27 | BooleanCoercible's rule. Stated by BooleanPassesExactlyLiterals and BooleanIntegers. |
| Validators.Decide | lib/vandrake/validator/base.rb:118 | `run_validator(*values)` dispatched to the class's rule. Its Format branch uses the corrected FormatRule, not the lookup of format.rb lines 53-54 (Findings row 4). |
| Validators.Check | lib/vandrake/validator/base.rb:112-119 | `Validator.new(params).validate(*values)`: the parameter check, then the arity check, then the rule and `set_error`. The Format branch uses the corrected lookup (Findings row 4). Stated by ArityError, DecidedCodesAreKnown, NilPassesAllButPresence and the per-validator lemmas, and tied to the validator object by ValidatorBase.Validator.Validate. |
| ValidatorProperties.Defaults | lib/vandrake/validator/base.rb:47-53 | Inputs is 1 except for ValueMatch (2). Only BooleanCoercible is raw. |
| ValidatorProperties.ArityError | lib/vandrake/validator/base.rb:114-116 | With accepted params, a wrong number of values raises "This validator takes N value(s) for validation, M given", whatever the values. |
| ValidatorProperties.ArityMessageExample | lib/vandrake/validator/base.rb:116 | The message for ValueMatch given one value. |
| ValidatorProperties.DecidedCodesAreKnown | lib/vandrake/validator/base.rb:136-137 | No built-in rule names a code outside its own table, so "Unknown error code" never comes out of a built-in validator. |
| ValidatorProperties.RenderUnknownCode | lib/vandrake/validator/base.rb:137 | `set_error` on a code missing from the table raises. |
| ValidatorProperties.RenderWithoutArgs | lib/vandrake/validator/base.rb:139-143 | Without arguments the template is the message, and the code is set. |
| ValidatorProperties.NilPassesAllButPresence | lib/vandrake/validator/length.rb:29 | nil passes every validator except Presence, for every accepted parameter set. ValueMatch takes two nils. This covers each rule's nil guard: length.rb line 29, absence.rb line 18, inclusion.rb line 30, exclusion.rb line 31, value_match.rb line 20, format.rb line 49 and boolean_coercible.rb line 19. |
| ValidatorProperties.PresenceErrorTable | lib/vandrake/validator/presence.rb:7-10 | Presence's table has exactly `missing` and `empty`. |
| ValidatorProperties.PresenceMissing | lib/vandrake/validator/presence.rb:19-21 | nil fails with `missing`, "must be provided". |
| ValidatorProperties.PresenceEmpty | lib/vandrake/validator/presence.rb:22-24 | An empty String, Symbol or Array fails with `empty`, "cannot be empty". |
| ValidatorProperties.PresencePasses | lib/vandrake/validator/presence.rb:25-27 | Every other value passes, false and 0 included. |
| ValidatorProperties.AbsencePasses | lib/vandrake/validator/absence.rb:18-19 | nil and empty values pass. |
| ValidatorProperties.AbsenceFails | lib/vandrake/validator/absence.rb:20-22 | Any other value fails with `present`, "must be absent". |
| ValidatorProperties.AbsenceIsOppositeOfPresence | lib/vandrake/validator/absence.rb:17-24 | Neither raises, and Absence passes exactly when Presence does not. |
| ValidatorProperties.LengthParams | lib/vandrake/validator/length.rb:17-20 | A missing `:length` raises the "Missing :legth" message. A non-Range raises the type message with its class name. |
| ValidatorProperties.LengthIgnoresLengthless | lib/vandrake/validator/length.rb:34-46 | Values without a length (nil, integers, booleans) pass, whatever the range. |
| ValidatorProperties.LengthTooShort | lib/vandrake/validator/length.rb:35-37 | A length below min fails with `short` and a message carrying min. |
| ValidatorProperties.LengthTooLong | lib/vandrake/validator/length.rb:38-40 | A length above max fails with `long` and a message carrying max. |
| ValidatorProperties.LengthWithin | lib/vandrake/validator/length.rb:41-42 | Both bounds are inclusive. |
| ValidatorProperties.LengthEmptyRange | lib/vandrake/validator/length.rb:31-35 | For an empty range `min` is nil, so comparing a length raises. |
| ValidatorProperties.LengthShortExample | lib/vandrake/validator/length.rb:35-37 | "jon" against `4..10` fails with "has to be longer than 4 characters". |
| ValidatorProperties.LengthLongExample | lib/vandrake/validator/length.rb:38-40 | A 20-character string against `4..10` fails with "has to be 10 characters or less". |
| ValidatorProperties.InclusionParams | lib/vandrake/validator/inclusion.rb:18-21 | A missing `:in` raises. An `:in` with no `include?` raises the Enumerable message. |
| ValidatorProperties.InclusionMember | lib/vandrake/validator/inclusion.rb:32-33 | A member passes. |
| ValidatorProperties.InclusionNotInRange | lib/vandrake/validator/inclusion.rb:35-36 | A non-member of a range fails with `not_in_range` and "must be between min and max". |
| ValidatorProperties.InclusionNotInSet | lib/vandrake/validator/inclusion.rb:37-38 | A non-member of an Array fails with `not_in_set` and the elements joined by ", ". |
| ValidatorProperties.ExclusionParams | lib/vandrake/validator/exclusion.rb:19-22 | A missing `:not_in` raises. A non-Enumerable `:not_in` raises. |
| ValidatorProperties.ExclusionInRange | lib/vandrake/validator/exclusion.rb:34-35 | A range member fails with `in_range` and both bounds. |
| ValidatorProperties.ExclusionInSet | lib/vandrake/validator/exclusion.rb:36-37 | An Array member fails with `in_set` and the joined elements. |
| ValidatorProperties.ExclusionNonMember | lib/vandrake/validator/exclusion.rb:41-43 | A non-member passes. |
| ValidatorProperties.ExclusionIsOppositeOfInclusion | lib/vandrake/validator/exclusion.rb:33 | For a range or an Array and a non-nil value, neither raises, and Exclusion passes exactly when Inclusion fails. |
| ValidatorProperties.ExclusionRangeExample | lib/vandrake/validator/exclusion.rb:34-35 | 5 against `0..10` fails with "must not be between 0 and 10". |
| ValidatorProperties.ExclusionSetExample | lib/vandrake/validator/exclusion.rb:36-37 | "two" against `["one", "two", "three"]` fails with "must not be any of: one, two, three". |
| ValidatorProperties.StringCollection | lib/vandrake/validator/inclusion.rb:32-38 | With a String as the collection, a non-nil value that is not a String raises the conversion error in both validators. A String value is tested as a substring. The set message then raises, because a String has no `to_a`: Inclusion raises for a non-substring and Exclusion for a substring. Otherwise each passes. |
| ValidatorProperties.NestedJoinExample | lib/vandrake/validator/inclusion.rb:38 | `[1, [2, 3]].join(', ')` is "1, 2, 3". |
| ValidatorProperties.ValueMatchPasses | lib/vandrake/validator/value_match.rb:20-23 | Equal values pass, two nils included. |
| ValidatorProperties.ValueMatchFails | lib/vandrake/validator/value_match.rb:22-27 | Different values fail with `no_match`, "must be the same". nil against a non-nil value counts as different. |
| ValidatorProperties.ValueMatchOneValue | lib/vandrake/validator/value_match.rb:11 | With arity 2, one value raises "This validator takes 2 value(s) for validation, 1 given". |
| ValidatorProperties.FormatParams | lib/vandrake/validator/format.rb:30-40 | Three parameter errors raise: a missing `:format`, a format that is neither a Symbol nor a Regexp, and an unknown format name. |
| ValidatorProperties.FormatNamedMismatch | lib/vandrake/validator/format.rb:53-65 | A named-format mismatch fails with `not_<name>` and that code's message. |
| ValidatorProperties.FormatNamedMatch | lib/vandrake/validator/format.rb:61-62 | A named-format match passes. |
| ValidatorProperties.FormatCustomMismatch | lib/vandrake/validator/format.rb:56-65 | A custom pattern mismatch fails with `wrong_format`, "has to be in the correct format". |
| ValidatorProperties.FormatNonString | lib/vandrake/validator/format.rb:61 | Matching a value that is neither a String nor a Symbol raises. |
| ValidatorProperties.FormatStringNameAsWritten | lib/vandrake/validator/format.rb:53-54 | As written, `format: "alnum"` is accepted, and then "abc" is rejected. The corrected rule accepts it. |
| ValidatorProperties.FormatStringNameAsSymbol | lib/vandrake/validator/format.rb:37-39 | The corrected rule treats a String format name exactly as the Symbol of the same name. |
| ValidatorProperties.BooleanPassesExactlyLiterals | lib/vandrake/validator/boolean_coercible.rb:19-26 | A non-nil value passes exactly when its downcased `to_s` is "true", "false", "0" or "1". Otherwise it fails with `not_boolean` and the fixed message. |
| ValidatorProperties.BooleanIntegers | lib/vandrake/validator/boolean_coercible.rb:21 | Among the integers, exactly 0 and 1 pass. |
| ValidatorProperties.IntTextLiteral | lib/vandrake/validator/boolean_coercible.rb:21 | The text of an integer is a boolean literal exactly for 0 and 1. |
| ValidatorProperties.BooleanUpperCaseExample | lib/vandrake/validator/boolean_coercible.rb:21 | "TRUE" passes after downcasing. |
| ValidatorProperties.BooleanRejectExample | lib/vandrake/validator/boolean_coercible.rb:24-25 | "yep" fails with `not_boolean`. |
| ValidatorBase.ShortName | lib/vandrake/validator/base.rb:71 | `name.gsub(/^.*::/, '')`. Stated by ShortNameQualified and ShortNameUnqualified. |
| ValidatorBase.Registered | lib/vandrake/validator/base.rb:70-76 | The registry after `inherited` ran for each class in order. Stated by RegisteredFinds, RegisteredKeys and RegisteredKeeps. |
| ValidatorBase.ShortNameQualified | lib/vandrake/validator/base.rb:71 | `gsub(/^.*::/, '')` leaves the class name after the last `::`. |
| ValidatorBase.ShortNameUnqualified | lib/vandrake/validator/base.rb:71 | A name without `::` is unchanged. |
| ValidatorBase.ShortNameOfClass | lib/vandrake/validator/base.rb:71 | Each built-in class registers under its short name. |
| ValidatorBase.GetClass | lib/vandrake/validator/base.rb:30-33 | It finds a type exactly when the parameter has a symbol name that is registered. It returns that entry, and nil otherwise. |
| ValidatorBase.TypeRegistry.Inherited | lib/vandrake/validator/base.rb:70-76 | The registry gains the class under its short name, overwriting any earlier entry, and nothing else changes. |
| ValidatorBase.TypeRegistry.RegisterBuiltins | lib/vandrake.rb:8-17 | Loading the built-in classes in order registers each of them. |
| ValidatorBase.RegisteredFinds | lib/vandrake/validator/base.rb:70-76 | After registration, every built-in name resolves to its type. |
| ValidatorBase.RegisteredKeys | lib/vandrake/validator/base.rb:72 | Registration adds exactly the built-in names. |
| ValidatorBase.RegisteredKeeps | lib/vandrake/validator/base.rb:72 | Other entries are kept. |
| ValidatorBase.BuiltinsRegistered | lib/vandrake/validator/base.rb:70-76 | The combination of the three above for the whole built-in list. |
| ValidatorBase.KindNamesDistinct | lib/vandrake/validator/base.rb:71-72 | No two built-in validators share a registry name, and no name contains `::`. |
| ValidatorBase.Validator.ResetLastError | lib/vandrake/validator/base.rb:89-92 | Both error fields become nil. |
| ValidatorBase.Validator.SetError | lib/vandrake/validator/base.rb:135-144 | An unknown code raises and leaves the fields alone. Otherwise it sets the code and the rendered message. |
| ValidatorBase.Validator.Validate | lib/vandrake/validator/base.rb:112-119 | The fields are cleared first. A pass leaves both nil, a failure sets both to `Check`'s code and message, and a raise leaves both nil. |
| ValidatorBase.Validator.RunValidator | lib/vandrake/validator/presence.rb:18-28 | The rule's decision, with `set_error` on a rejection. |
| ValidatorBase.NewValidator | lib/vandrake/validator/base.rb:79-84 | `validate_params` raises before the instance exists. Otherwise it gives a fresh instance with the params and both fields nil. |
| Failures.WellFormed | lib/vandrake/failed_validators.rb:53-65 | Each key of the hash exists only once the append that fills it happened. Preserved by AppendedWellFormed. |
| Failures.Appended | lib/vandrake/failed_validators.rb:48-73 | `add`. Stated by AppendedToModel, AppendedToAttribute, AppendedToEmpty and AppendedExtends. |
| Failures.Extends | lib/vandrake/failed_validators.rb:55-67 | The report only grows: every list keeps its entries in order. |
| Failures.FailedValidators.constructor | lib/vandrake/failed_validators.rb:33-35 | The report starts as `{}`. |
| Failures.FailedValidators.Add | lib/vandrake/failed_validators.rb:48-73 | The report becomes `Appended`. It stays well formed, extends the old one, and is non-empty. |
| Failures.FailedValidators.Clear | lib/vandrake/failed_validators.rb:92-94 | The report becomes `{}`. |
| Failures.FailedValidators.List | lib/vandrake/failed_validators.rb:100-102 | It returns the report. |
| Failures.AppendedToModel | lib/vandrake/failed_validators.rb:52-60 | More than one attribute appends one `{validator, attributes, error_code, message}` entry to the model list, and the attribute buckets are unchanged. |
| Failures.AppendedToAttribute | lib/vandrake/failed_validators.rb:61-72 | One attribute (or none) appends one entry to its bucket, creating the bucket, and every other bucket and the model list are unchanged. |
| Failures.AppendedToEmpty | lib/vandrake/failed_validators.rb:52-72 | The first failure creates exactly the one list it is filed in. |
| Failures.AppendedExtends | lib/vandrake/failed_validators.rb:55-67 | Appending keeps every earlier entry in order, duplicates included. |
| Failures.ExtendsTransitive | lib/vandrake/failed_validators.rb:55-67 | "Keeps earlier entries" composes across appends. |
| Failures.AppendedWellFormed | lib/vandrake/failed_validators.rb:53-65 | A key only exists once it holds an entry. |
| Failures.AppendedNotEmpty | lib/vandrake/failed_validators.rb:53-65 | After an `add` the list is not `{}`. |
| Failures.EmptyIffNothingAdded | lib/vandrake/failed_validators.rb:100-102 | Starting from `{}`, the list is empty exactly when no `add` happened. |
| Failures.AppendedAllExtends | lib/vandrake/failed_validators.rb:48-73 | Any sequence of adds keeps the report well formed and extends it. |
| Failures.ExtendsNotEmpty | lib/vandrake/failed_validators.rb:53-65 | Extending a non-empty report keeps it non-empty. |
| SingleValidation.Symbolized | lib/vandrake/validation.rb:43-46 | It succeeds exactly when every attribute has a symbol name, giving the names in order. Otherwise the error names the first attribute that has none. |
| SingleValidation.FirstNamelessError | lib/vandrake/validation.rb:43-46 | The error is that of the first nameless attribute. |
| SingleValidation.BuildAsWritten | lib/vandrake/validation.rb:33-47 | Checks run in order: the name check, the registry lookup ("Unknown validator: name"), then the attribute names. On success it holds the name, the registry's type, the extracted params and the attribute names in order. |
| SingleValidation.Build | lib/vandrake/validation.rb:33-47 | Like BuildAsWritten. In addition, the attribute count is the validator's arity, and a different count is the arity error. |
| SingleValidation.NewValidation | lib/vandrake/validation.rb:33-47 | The in-place construction, with its `map!` loop over the attributes, gives `Build`. |
| SingleValidation.ReadValues | lib/vandrake/validation.rb:61 | One value per attribute, in order: the raw value for a raw validator, the type-cast value otherwise. |
| SingleValidation.ReadValuesAsWritten | lib/vandrake/validation.rb:61 | One type-cast value per attribute, for every validator. |
| SingleValidation.Read | lib/vandrake/validation.rb:61 | `read_attribute(name)`, nil for a missing attribute. |
| SingleValidation.Run | lib/vandrake/validation.rb:60-74 | `run` with the corrected instance-level validate of Findings row 1. Stated by RunOn, RunExtends and RunFailureOn*, and computed by Execute. |
| SingleValidation.RunOn | lib/vandrake/validation.rb:63-73 | true exactly when the validator passes, and a raise exactly when it raises, and neither touches the report. false means exactly one append of the name, message and code. |
| SingleValidation.RunAsWritten | lib/vandrake/validation.rb:63 | As written, `run` raises NoMethodError before touching the report. |
| SingleValidation.Execute | lib/vandrake/validation.rb:60-74 | The imperative run, using a fresh validator and the report object, gives `Run`. |
| SingleValidation.RunExtends | lib/vandrake/validation.rb:65-72 | A run only appends. |
| SingleValidation.RunFailureOnOneAttribute | lib/vandrake/validation.rb:65-72 | A failure on one attribute lands in that attribute's bucket only. |
| SingleValidation.RunFailureOnSeveralAttributes | lib/vandrake/validation.rb:65-72 | A failure on several attributes lands in the model list with all the names. |
| SingleValidation.BuiltRunsHaveArity | lib/vandrake/validator/base.rb:116 | For a built Validation, a run raises only through params, the rule or rendering, never through arity. |
| ValidationProperties.NameNotSymbolExample | lib/vandrake/validation.rb:34 | A class as validator name raises "Validator name should be provided as a Symbol, Class given". |
| ValidationProperties.UnknownValidatorExample | lib/vandrake/validation.rb:36-37 | `:Batmobil` raises "Unknown validator: Batmobil". |
| ValidationProperties.AttributeNotSymbolExample | lib/vandrake/validation.rb:43-46 | The attribute 123 raises "Attribute name has to be a Symbol, Fixnum given". |
| ValidationProperties.BuildPresenceExample | lib/vandrake/validation.rb:33-47 | `Validation.new(:Presence, :title)`. |
| ValidationProperties.BuildSplitsParams | lib/vandrake/validation.rb:41 | A trailing Hash is the params. Every other argument is an attribute, in order. |
| ValidationProperties.PresencePassExample | lib/vandrake/validation.rb:63-64 | A passing run returns true and leaves the report unchanged. |
| ValidationProperties.PresenceFailExample | lib/vandrake/validation.rb:65-72 | A failing run files one entry under `title`. |
| ValidationProperties.ValueMatchFailExample | lib/vandrake/validation.rb:65-72 | A failing ValueMatch files one model entry with both names. |
| ValidationProperties.RawPassExample | lib/vandrake/validation.rb:61 | BooleanCoercible reads the raw value 1. |
| ValidationProperties.RawReadAsWritten | lib/vandrake/validation.rb:61 | A raw "nope" fails under the raw read, but passes when the type-cast nil is read. |
| ValidationProperties.ClassLevelValidateAsWritten | lib/vandrake/validation.rb:63 | As written, even a passing Presence run raises. The corrected run passes. |
| ValidationProperties.ArityAsWritten | lib/vandrake/validation.rb:33-47 | As written, `Validation.new(:ValueMatch, :password)` builds and then raises the arity error at run. The corrected construction refuses it. |
| Chains.ConditionHolds | lib/vandrake/validation_chain.rb:235 | One condition: Presence or Absence run on the attribute's value. |
| Chains.ConditionsMet | lib/vandrake/validation_chain.rb:231-239 | Every condition holds. Computed by CheckConditions. |
| Chains.ConditionsFor | lib/vandrake/validation_chain.rb:197-214 | `generate_conditions`. Stated by ConditionsOrder. |
| Chains.MergedSettings | lib/vandrake/validation_chain.rb:107-118 | The settings of `{cond => attributes}.merge(params)`: a condition key in the params wins. |
| Chains.RunItem | lib/vandrake/validation_chain.rb:167-168 | One child's run: a Validation's `run` or a sub-chain's `run`. |
| Chains.RunItems | lib/vandrake/validation_chain.rb:165-173 | The children in order, with the `success` flag and the break. Stated by AllPass, ItemsNeverPassAfterFailure, StopsAtFirstFailure and ContinuesAfterFailure. |
| Chains.RunChain | lib/vandrake/validation_chain.rb:162-174 | `run`: bypass on unmet conditions, else the children. Stated by Bypassed, ChainPassKeepsReport, ChainFailureReported, ChainExtends and ChainIgnoresReport, and computed by ExecuteChain. |
| Chains.Listed | lib/vandrake/validation_chain.rb:204 | An Array gives its elements, and anything else gives a one-element list. |
| Chains.SettingsOf | lib/vandrake/validation_chain.rb:46-50 | `continue_on_failure` holds exactly when it is given and truthy. The `if_present`/`if_absent` lists come from the params, or are empty. |
| Chains.ContinueOnFailureDefault | lib/vandrake/validation_chain.rb:47 | `continue_on_failure` is false when absent or falsy. |
| Chains.Tagged | lib/vandrake/validation_chain.rb:206-211 | One condition per attribute, in order. |
| Chains.ConditionsOrder | lib/vandrake/validation_chain.rb:197-214 | Every `if_present` condition comes first, then every `if_absent` one, one per attribute, in the given order. |
| Chains.ConditionNeverRaises | lib/vandrake/validation_chain.rb:235 | A parameterless Presence/Absence check never raises. |
| Chains.Bypassed | lib/vandrake/validation_chain.rb:163 | A failed condition gives true and leaves the report unchanged. |
| Chains.AllPass | lib/vandrake/validation_chain.rb:165-173 | When the conditions are met, the run passes exactly when every child passes. |
| Chains.ItemsNeverPassAfterFailure | lib/vandrake/validation_chain.rb:169 | Once a child has failed, the result can no longer be true. |
| Chains.StopsAtFirstFailure | lib/vandrake/validation_chain.rb:170 | Without continue on failure, the run stops at the first failing child. Only that child's entries are added. |
| Chains.ContinuesAfterFailure | lib/vandrake/validation_chain.rb:167-173 | With continue on failure, every child runs in order, nested chains included. The report collects every child's failures, and the result is their conjunction. |
| Chains.ChainPassKeepsReport | lib/vandrake/validation_chain.rb:162-174 | A chain that answers true has added nothing. |
| Chains.ChainFailureReported | lib/vandrake/validation_chain.rb:162-174 | A chain that answers false has left the report non-empty. |
| Chains.ChainExtends | lib/vandrake/validation_chain.rb:162-174 | A run only appends. |
| Chains.ChainIgnoresReport | lib/vandrake/validation_chain.rb:162-174 | The outcome does not depend on the report passed in. |
| Chains.CheckConditions | lib/vandrake/validation_chain.rb:231-239 | The loop with early return computes `ConditionsMet`. An empty list counts as met. |
| Chains.ExecuteChain | lib/vandrake/validation_chain.rb:162-174 | The imperative run on the report object gives `RunChain`. |
| Chains.ExecuteItems | lib/vandrake/validation_chain.rb:165-173 | The `each`/`break` loop with its `success` accumulator gives `RunItems`. |
| Chains.FirstOther | lib/vandrake/validation_chain.rb:143-146 | The index of the first item that is neither a Validation nor a chain. |
| Chains.ValidationChain.constructor | lib/vandrake/validation_chain.rb:46-55 | It sets `continue_on_failure`, the generated conditions and no items. |
| Chains.ValidationChain.GenerateConditions | lib/vandrake/validation_chain.rb:197-214 | The nested loops append `ConditionsFor(settings)`. |
| Chains.ValidationChain.Add | lib/vandrake/validation_chain.rb:142-152 | Items before the first bad one are appended in order. A bad item raises with its class name. Otherwise it returns the last item, or nil for none. |
| Chains.ValidationChain.Validate | lib/vandrake/validation_chain.rb:82-84 | It appends exactly the built Validation and returns it. A construction error appends nothing. |
| Chains.ValidationChain.AddChain | lib/vandrake/validation_chain.rb:100-102 | It appends exactly one new sub-chain and returns it. |
| Chains.ValidationChain.ChainWith | lib/vandrake/validation_chain.rb:100-102 | `chain(params)` appends one sub-chain with those settings. |
| Chains.ValidationChain.IfCondition | lib/vandrake/validation_chain.rb:107-118 | `if_present`/`if_absent` append one sub-chain whose settings merge the attributes with the trailing params. |
| Chains.IfConditionConditions | lib/vandrake/validation_chain.rb:107-118 | The new chain has exactly one Presence/Absence condition per attribute. |
| Chains.ValidationChain.Run | lib/vandrake/validation_chain.rb:162-174 | `run` on the chain object gives `RunChain` of its value. |
| Validations.KeyCalls | lib/vandrake/validations.rb:132-136 | The block's `validate` calls for a key, in order. Stated by KeySettingsShape and KeyCallsOrder. |
| Validations.KeyChain | lib/vandrake/validations.rb:124-137 | The chain `create_validations_for` adds for a key. Stated by KeyChainBuilds, OptionalKeySkipped and RequiredKeyMissing, and computed by NewKeyChain. |
| Validations.KeySettingsShape | lib/vandrake/validations.rb:129-132 | A required key's chain has no condition and starts with Presence on the key. An optional key's chain has one `if_present` condition on the key. Neither continues on failure. |
| Validations.KeyCallsOrder | lib/vandrake/validations.rb:133-136 | Format, Length, Inclusion and Exclusion follow in that order, each exactly when its key parameter is given. |
| Validations.BuildCalls | lib/vandrake/validations.rb:131-137 | The block's calls give one Validation each, in order, or the first construction error. |
| Validations.KeyChainBuilds | lib/vandrake/validations.rb:131-137 | With the built-in registry, every key's chain builds. |
| Validations.OptionalKeySkipped | lib/vandrake/validations.rb:128-129 | An optional key whose value is nil or empty is skipped: true, with nothing reported. |
| Validations.RequiredKeyMissing | lib/vandrake/validations.rb:132 | A missing required key fails on Presence alone, and nothing after it runs. |
| Validations.NewKeyChain | lib/vandrake/validations.rb:131-137 | The block's `validate` calls on a new chain give `KeyChain`. |
| Validations.ModelClass.AttributeChain | lib/vandrake/validations.rb:95-98 | The attribute chain is created once with continue on failure, appended to the main chain, and unchanged on later calls. |
| Validations.ModelClass.Validate | lib/vandrake/validations.rb:103 | Proxies `validate` to the main chain. |
| Validations.ModelClass.ChainWith | lib/vandrake/validations.rb:107 | Proxies `chain` to the main chain. |
| Validations.ModelClass.IfCondition | lib/vandrake/validations.rb:111-115 | The class-level `if_present(params = {})`/`if_absent(params = {})` take one optional argument. They pass it, or `{}`, as the only argument of the main chain's method. The main chain gains exactly one sub-chain with the settings it builds from that argument. |
| Validations.ProxyConditions | lib/vandrake/validations.rb:111-115 | Through the proxy, no argument gives a chain with no condition, and a symbol gives one condition on that attribute. An options Hash gives the settings it spells out. |
| Validations.ModelClass.CreateValidationsFor | lib/vandrake/validations.rb:124-138 | The attribute chain exists afterwards and gains exactly the key's chain. A construction error adds nothing to it. |
| Validations.ModelInstance.ResetValidated | lib/vandrake/validations.rb:25-27 | `validated` becomes false. |
| Validations.ModelInstance.RunValidations | lib/vandrake/validations.rb:61-75 | It clears the report and runs the main chain from `{}`. `validated` becomes true unless the run raised. |
| Validations.ModelInstance.IsValid | lib/vandrake/validations.rb:52-55 | Already validated: it answers whether the report is empty, and changes nothing. Otherwise it runs the main chain from `{}`. The report becomes what that run leaves, even when it raises. `validated` becomes true exactly when the run finished. The answer is the run's own result, or the raised error. |
| Validations.RunFromEmpty | lib/vandrake/validations.rb:52-55 | From an empty report, the report stays empty exactly when the run answers true. |

## Left out

- CoercibleToInteger and CoercibleToFloat: their behaviour is Ruby's `Integer()`/`Float()` parsers.
- The logger: it is I/O.
- `ActiveSupport::Concern`, `run_callbacks` and the embedded-model loop of `run_validations` (`include_embedded_model` is commented out in the source).
- The Ruby regex engine:
  - A custom `Regexp` is an abstract predicate on strings.
  - The named formats are hand-written predicates with `^`/`$` as whole-string anchors.
- Validators.IsCollection: Ruby accepts a Hash as `:in`/`:not_in` and tests it by key; the model rejects a Hash with the Enumerable error. Membership by key could be modelled. The `to_a.join` message cannot, because it follows the Hash's insertion order, which a map does not keep.
- ValidatorProperties.InclusionParams: leaves out a Hash `:in`. Ruby accepts it, but the model rejects it (see Validators.IsCollection).
- ValidatorProperties.ExclusionParams: leaves out a Hash `:not_in`. Ruby accepts it, but the model rejects it (see Validators.IsCollection).
- Parameter keys: a params Hash is a map from symbol names. Ruby keys params by Symbol, so `"length" => 1..5` with a String key fails `params.key? :length` and raises. The model cannot tell it from `length: 1..5`. The same holds for `:in`, `:not_in`, `:format`, `:continue_on_failure`, `:if_present` and `:if_absent`.
- Date ranges: ranges are integer ranges only, and exclusive ranges are not modelled.
- Class names in messages are the type-tag strings of `Values.ClassName` (Ruby 1.9 names such as `Fixnum`).
- `Downcase` folds ASCII letters only.
- Object identity of chains: a sub-chain is stored as a value when it is added. The single place where later changes to an added chain object matter is the memoised attribute chain, and `Validations.ModelClass` models that slot explicitly.
- The blocks given to `chain`, `if_present` and `if_absent`: a block is modelled as the items it adds (`body`). The block of `create_validations_for` is modelled call by call.
- `read_attribute`: a missing attribute reads as nil. The record is two maps, typed and raw. A record is keyed by names, so a String and a Symbol with the same name read the same attribute. A host whose `read_attribute` is keyed by Symbols reads nil for a String, for example for the attribute of `if_present "title"`.
- `error_code` defaulting to nil in `FailedValidators#add`: callers pass `None` explicitly.
- The validators' class-level `self.run_validator` in presence.rb, absence.rb, value_match.rb and boolean_coercible.rb: the model follows the instance-scoped contract of base.rb (Findings, row 1).

## Findings

| source | as written | input that shows it | evidently intended | confidence | as-written member | corrected member |
|---|---|---|---|---|---|---|
| lib/vandrake/validation.rb:63 | `run` calls `validate(*values, @params)` on the validator class. base.rb:112 defines `validate` only on instances, and several rules are class-level `self.run_validator`. | `Validation.new(:Presence, :title)` run on a record with title "Bruce Wayne" raises NoMethodError | validate the values with `Validator.new(params)` and report its last error | high, not executed | ValidationProperties.ClassLevelValidateAsWritten | SingleValidation.Run |
| lib/vandrake/validation.rb:61 | values are always read with `read_attribute`, whatever `raw?` says | BooleanCoercible on `is_batman` with type-cast nil and raw "nope" passes | a raw validator reads the raw value, so "nope" fails with `not_boolean` | medium, not executed | ValidationProperties.RawReadAsWritten | SingleValidation.ReadValues |
| lib/vandrake/validation.rb:33-47 | construction does not compare the attribute count with the validator's arity, so the error surfaces only at run time (base.rb:116) | `Validation.new(:ValueMatch, :password)` is accepted and raises when run | construction raises the arity error | medium, not executed | ValidationProperties.ArityAsWritten | SingleValidation.Build |
| lib/vandrake/validator/format.rb:53-54 | `FORMATS[format]` with a String format such as "alnum" is nil, although `validate_params` accepted it through `to_sym` | `format: "alnum"` on "abc" fails with `not_alnum` | look the pattern up by `format.to_sym` | high, not executed | ValidatorProperties.FormatStringNameAsWritten | ValidatorProperties.FormatStringNameAsSymbol |
