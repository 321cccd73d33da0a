/** The validation chains of lib/vandrake/validation_chain.rb: an ordered
    tree of validations and sub-chains, each chain guarded by Presence and
    Absence conditions on attributes. A chain whose conditions do not hold
    answers true without running anything; otherwise its items run in order,
    and unless `continue_on_failure` is set the first failing item ends the
    run. */
module Chains {
  import opened Wrappers
  import opened Values
  import opened Vandrake
  import opened Validators
  import opened Failures
  import opened ValidatorBase
  import opened SingleValidation

  // ---------------------------------------------------------------------------
  // Conditions (`generate_conditions`, `conditions_met?`)
  // ---------------------------------------------------------------------------

  /** `:if_present` runs Presence on the attribute, `:if_absent` Absence. */
  datatype Polarity = IfPresent | IfAbsent

  /** `{validator: Presence or Absence, attribute: a}`. The attribute is
      whatever object the caller gave. */
  datatype Condition = Condition(polarity: Polarity, attribute: Param)

  function ConditionKind(p: Polarity): Kind
  {
    match p
    case IfPresent => Presence
    case IfAbsent => Absence
  }

  /** The host's `read_attribute` of a condition's attribute: a name read as
      in a validation, any other object reads nil. */
  function ConditionValue(rec: Record, attribute: Param): Value
  {
    match SymbolName(attribute)
    case Some(n) => Read(rec, n)
    case None => Nil
  }

  /** `condition[:validator].new.validate(document.read_attribute(a))`. */
  predicate ConditionHolds(c: Condition, rec: Record)
  {
    Check(ConditionKind(c.polarity), map[], [ConditionValue(rec, c.attribute)]) == Success(Passed)
  }

  /** `conditions_met?`: every condition holds; no conditions at all count as
      met. */
  predicate ConditionsMet(conds: seq<Condition>, rec: Record)
  {
    forall k :: 0 <= k < |conds| ==> ConditionHolds(conds[k], rec)
  }

  /** The parameter `initialize` reads for each polarity. */
  function ConditionKey(p: Polarity): string
  {
    match p
    case IfPresent => "if_present"
    case IfAbsent => "if_absent"
  }

  /** `params[condition].is_a?(Array) ? params[condition] : [params[condition]]`. */
  function Listed(p: Param): (r: seq<Param>)
    ensures p.Val? && p.v.List? ==> |r| == |p.v.items| && forall k :: 0 <= k < |r| ==> r[k] == Val(p.v.items[k])
    ensures !(p.Val? && p.v.List?) ==> r == [p]
  {
    if p.Val? && p.v.List? then seq(|p.v.items|, k requires 0 <= k < |p.v.items| => Val(p.v.items[k]))
    else [p]
  }

  /** What `initialize` takes from its params hash: `continue_on_failure`
      (any truthy value counts) and the attributes to guard on, for each
      polarity whose key is given. */
  datatype Settings = Settings(continueOnFailure: bool, present: seq<Param>, absent: seq<Param>)

  function SettingsOf(params: map<string, Param>): (s: Settings)
    ensures s.continueOnFailure <==> "continue_on_failure" in params && Truthy(params["continue_on_failure"])
    ensures "if_present" in params ==> s.present == Listed(params["if_present"])
    ensures "if_present" !in params ==> s.present == []
    ensures "if_absent" in params ==> s.absent == Listed(params["if_absent"])
    ensures "if_absent" !in params ==> s.absent == []
  {
    Settings(
      "continue_on_failure" in params && Truthy(params["continue_on_failure"]),
      if "if_present" in params then Listed(params["if_present"]) else [],
      if "if_absent" in params then Listed(params["if_absent"]) else [])
  }

  /** The settings of `{p => attributes}.merge(params)`, as `if_present` and
      `if_absent` build them: a `p` key in `params` wins over the
      attributes. */
  function MergedSettings(p: Polarity, attributes: seq<Param>, params: map<string, Param>): Settings
  {
    var s := SettingsOf(params);
    if ConditionKey(p) in params then s
    else if p == IfPresent then s.(present := attributes)
    else s.(absent := attributes)
  }

  function AttributesFor(s: Settings, p: Polarity): seq<Param>
  {
    match p
    case IfPresent => s.present
    case IfAbsent => s.absent
  }

  /** One condition of polarity `p` per attribute, in order. */
  function Tagged(p: Polarity, attributes: seq<Param>): (r: seq<Condition>)
    ensures |r| == |attributes|
    ensures forall k :: 0 <= k < |r| ==> r[k] == Condition(p, attributes[k])
  {
    seq(|attributes|, k requires 0 <= k < |attributes| => Condition(p, attributes[k]))
  }

  /** The conditions `generate_conditions` lists for the polarities `ps`, in
      that order. */
  function ConditionsOf(s: Settings, ps: seq<Polarity>): seq<Condition>
    decreases |ps|
  {
    if ps == [] then []
    else ConditionsOf(s, ps[..|ps| - 1]) + Tagged(ps[|ps| - 1], AttributesFor(s, ps[|ps| - 1]))
  }

  /** The hash `generate_conditions` walks lists `:if_present` first. */
  const Polarities: seq<Polarity> := [IfPresent, IfAbsent]

  function ConditionsFor(s: Settings): seq<Condition>
  {
    ConditionsOf(s, Polarities)
  }

  /** Every `if_present` attribute first, then every `if_absent` one, one
      condition each, in the order given. */
  lemma ConditionsOrder(s: Settings)
    ensures ConditionsFor(s) == Tagged(IfPresent, s.present) + Tagged(IfAbsent, s.absent)
    ensures |ConditionsFor(s)| == |s.present| + |s.absent|
    ensures forall k :: 0 <= k < |s.present| ==> ConditionsFor(s)[k] == Condition(IfPresent, s.present[k])
    ensures forall k :: 0 <= k < |s.absent| ==>
      ConditionsFor(s)[|s.present| + k] == Condition(IfAbsent, s.absent[k])
  {
    assert Polarities[..1][..0] == [];
    assert Polarities[..1] == [IfPresent];
    assert ConditionsOf(s, [IfPresent]) == Tagged(IfPresent, s.present);
  }

  /** Neither condition validator can raise. */
  lemma ConditionNeverRaises(c: Condition, rec: Record)
    ensures Check(ConditionKind(c.polarity), map[], [ConditionValue(rec, c.attribute)]).Success?
  {
  }

  // ---------------------------------------------------------------------------
  // Chains as values, and the run they specify (`run`)
  // ---------------------------------------------------------------------------

  datatype Chain = Chain(continueOnFailure: bool, conditions: seq<Condition>, items: seq<Item>)

  datatype Item = Leaf(validation: Validation) | Sub(chain: Chain)

  /** `item.run(document)`. */
  function RunItem(it: Item, rec: Record, rep: Report): (RunResult, Report)
    decreases it
  {
    match it
    case Leaf(v) => Run(v, rec, rep)
    case Sub(c) => RunChain(c, rec, rep)
  }

  /** `run(document)`: true for a bypassed chain, else the items from the
      first. */
  function RunChain(c: Chain, rec: Record, rep: Report): (RunResult, Report)
    decreases c, 1
  {
    if !ConditionsMet(c.conditions, rec) then (Done(true), rep)
    else RunItems(c, 0, rec, rep, true)
  }

  /** The `each` loop from item `i` on, with `success` the conjunction so far:
      it ends early once `success` is false, unless the chain continues on
      failure; a raise ends the whole run. */
  function RunItems(c: Chain, i: nat, rec: Record, rep: Report, success: bool): (RunResult, Report)
    requires i <= |c.items|
    decreases c, 0, |c.items| - i
  {
    if i == |c.items| || !(c.continueOnFailure || success) then (Done(success), rep)
    else
      var (res, next) := RunItem(c.items[i], rec, rep);
      match res
      case Raised(e) => (Raised(e), next)
      case Done(ok) => RunItems(c, i + 1, rec, next, success && ok)
  }

  /** An item's answer on its own, which does not depend on the report. */
  function Outcome(it: Item, rec: Record): RunResult
  {
    RunItem(it, rec, Empty()).0
  }

  /** Every item run in order, whatever each answers: the report a chain
      that continues on failure leaves. */
  function RunEach(items: seq<Item>, rec: Record, rep: Report): Report
    decreases |items|
  {
    if items == [] then rep else RunEach(items[1..], rec, RunItem(items[0], rec, rep).1)
  }

  // ---------------------------------------------------------------------------
  // Properties of the run
  // ---------------------------------------------------------------------------

  /** A chain whose conditions fail answers true and reports nothing. */
  lemma Bypassed(c: Chain, rec: Record, rep: Report)
    requires !ConditionsMet(c.conditions, rec)
    ensures RunChain(c, rec, rep) == (Done(true), rep)
  {
  }

  /** Items answer the same whatever the report already holds. */
  lemma {:induction false} ItemIgnoresReport(it: Item, rec: Record, r1: Report, r2: Report)
    ensures RunItem(it, rec, r1).0 == RunItem(it, rec, r2).0
    decreases it, 2
  {
    match it
    case Leaf(v) =>
    case Sub(c) => ChainIgnoresReport(c, rec, r1, r2);
  }

  lemma {:induction false} ChainIgnoresReport(c: Chain, rec: Record, r1: Report, r2: Report)
    ensures RunChain(c, rec, r1).0 == RunChain(c, rec, r2).0
    decreases c, 1
  {
    if ConditionsMet(c.conditions, rec) {
      ItemsIgnoreReport(c, 0, rec, r1, r2, true);
    }
  }

  lemma {:induction false} ItemsIgnoreReport(c: Chain, i: nat, rec: Record, r1: Report, r2: Report, success: bool)
    requires i <= |c.items|
    ensures RunItems(c, i, rec, r1, success).0 == RunItems(c, i, rec, r2, success).0
    decreases c, 0, |c.items| - i
  {
    if i < |c.items| && (c.continueOnFailure || success) {
      ItemIgnoresReport(c.items[i], rec, r1, r2);
      var res := RunItem(c.items[i], rec, r1).0;
      if res.Done? {
        ItemsIgnoreReport(c, i + 1, rec, RunItem(c.items[i], rec, r1).1, RunItem(c.items[i], rec, r2).1,
                          success && res.success);
      }
    }
  }

  /** A passing item adds nothing to the report. */
  lemma {:induction false} ItemPassKeepsReport(it: Item, rec: Record, rep: Report)
    ensures RunItem(it, rec, rep).0 == Done(true) ==> RunItem(it, rec, rep).1 == rep
    decreases it, 2
  {
    match it
    case Leaf(v) =>
    case Sub(c) => ChainPassKeepsReport(c, rec, rep);
  }

  /** A chain that answers true adds nothing to the report. */
  lemma {:induction false} ChainPassKeepsReport(c: Chain, rec: Record, rep: Report)
    ensures RunChain(c, rec, rep).0 == Done(true) ==> RunChain(c, rec, rep).1 == rep
    decreases c, 1
  {
    if ConditionsMet(c.conditions, rec) {
      ItemsPassKeepReport(c, 0, rec, rep, true);
    }
  }

  lemma {:induction false} ItemsPassKeepReport(c: Chain, i: nat, rec: Record, rep: Report, success: bool)
    requires i <= |c.items|
    ensures RunItems(c, i, rec, rep, success).0 == Done(true) ==>
      success && RunItems(c, i, rec, rep, success).1 == rep
    decreases c, 0, |c.items| - i
  {
    if i < |c.items| && (c.continueOnFailure || success) {
      var (res, next) := RunItem(c.items[i], rec, rep);
      if res.Done? {
        ItemsPassKeepReport(c, i + 1, rec, next, success && res.success);
        ItemPassKeepsReport(c.items[i], rec, rep);
      }
    }
  }

  /** Runs keep the report well formed and only add to it, whatever they
      answer. */
  lemma {:induction false} ItemExtends(it: Item, rec: Record, rep: Report)
    requires WellFormed(rep)
    ensures WellFormed(RunItem(it, rec, rep).1) && Extends(rep, RunItem(it, rec, rep).1)
    decreases it, 2
  {
    match it
    case Leaf(v) => RunExtends(v, rec, rep);
    case Sub(c) => ChainExtends(c, rec, rep);
  }

  lemma {:induction false} ChainExtends(c: Chain, rec: Record, rep: Report)
    requires WellFormed(rep)
    ensures WellFormed(RunChain(c, rec, rep).1) && Extends(rep, RunChain(c, rec, rep).1)
    decreases c, 1
  {
    if ConditionsMet(c.conditions, rec) {
      ItemsExtend(c, 0, rec, rep, true);
    } else {
      ExtendsReflexive(rep);
    }
  }

  lemma {:induction false} ItemsExtend(c: Chain, i: nat, rec: Record, rep: Report, success: bool)
    requires i <= |c.items| && WellFormed(rep)
    ensures WellFormed(RunItems(c, i, rec, rep, success).1) && Extends(rep, RunItems(c, i, rec, rep, success).1)
    decreases c, 0, |c.items| - i
  {
    if i == |c.items| || !(c.continueOnFailure || success) {
      ExtendsReflexive(rep);
    } else {
      var (res, next) := RunItem(c.items[i], rec, rep);
      ItemExtends(c.items[i], rec, rep);
      if res.Done? {
        ItemsExtend(c, i + 1, rec, next, success && res.success);
        ExtendsTransitive(rep, next, RunItems(c, i, rec, rep, success).1);
      }
    }
  }

  /** An item that answers false has reported something. */
  lemma {:induction false} ItemFailureReported(it: Item, rec: Record, rep: Report)
    requires WellFormed(rep) && RunItem(it, rec, rep).0 == Done(false)
    ensures !Failures.IsEmpty(RunItem(it, rec, rep).1)
    decreases it, 2
  {
    match it
    case Leaf(v) =>
      var f := Check(v.kind, v.params, ReadValues(v, rec)).value;
      AppendedNotEmpty(rep, v.attributes, v.validatorName, f.message, Some(f.code));
    case Sub(c) => ChainFailureReported(c, rec, rep);
  }

  /** A chain that answers false has reported something. */
  lemma {:induction false} ChainFailureReported(c: Chain, rec: Record, rep: Report)
    requires WellFormed(rep) && RunChain(c, rec, rep).0 == Done(false)
    ensures !Failures.IsEmpty(RunChain(c, rec, rep).1)
    decreases c, 1
  {
    ItemsFailureReported(c, 0, rec, rep, true);
  }

  lemma {:induction false} ItemsFailureReported(c: Chain, i: nat, rec: Record, rep: Report, success: bool)
    requires i <= |c.items| && WellFormed(rep)
    requires !success ==> !Failures.IsEmpty(rep)
    requires RunItems(c, i, rec, rep, success).0 == Done(false)
    ensures !Failures.IsEmpty(RunItems(c, i, rec, rep, success).1)
    decreases c, 0, |c.items| - i
  {
    if i < |c.items| && (c.continueOnFailure || success) {
      var (res, next) := RunItem(c.items[i], rec, rep);
      ItemExtends(c.items[i], rec, rep);
      if res == Done(false) {
        ItemFailureReported(c.items[i], rec, rep);
      } else if !success {
        ExtendsNotEmpty(rep, next);
      }
      ItemsFailureReported(c, i + 1, rec, next, success && res.success);
    }
  }

  /** Whatever the chain's setting, a chain whose conditions hold answers
      true exactly when every item answers true on its own. */
  lemma AllPass(c: Chain, rec: Record, rep: Report)
    requires ConditionsMet(c.conditions, rec)
    ensures RunChain(c, rec, rep).0 == Done(true) <==> forall k :: 0 <= k < |c.items| ==> Outcome(c.items[k], rec) == Done(true)
  {
    ItemsAllPass(c, 0, rec, rep);
  }

  lemma {:induction false} ItemsAllPass(c: Chain, i: nat, rec: Record, rep: Report)
    requires i <= |c.items|
    ensures RunItems(c, i, rec, rep, true).0 == Done(true) <==>
      forall k :: i <= k < |c.items| ==> Outcome(c.items[k], rec) == Done(true)
    decreases |c.items| - i
  {
    if i < |c.items| {
      var (res, next) := RunItem(c.items[i], rec, rep);
      ItemIgnoresReport(c.items[i], rec, rep, Empty());
      if res == Done(true) {
        ItemsAllPass(c, i + 1, rec, next);
      } else if res == Done(false) {
        ItemsNeverPassAfterFailure(c, i + 1, rec, next);
      }
    }
  }

  /** Once an item failed, the run cannot answer true. */
  lemma {:induction false} ItemsNeverPassAfterFailure(c: Chain, i: nat, rec: Record, rep: Report)
    requires i <= |c.items|
    ensures RunItems(c, i, rec, rep, false).0 != Done(true)
    decreases |c.items| - i
  {
    if i < |c.items| && c.continueOnFailure {
      var (res, next) := RunItem(c.items[i], rec, rep);
      if res.Done? {
        ItemsNeverPassAfterFailure(c, i + 1, rec, next);
      }
    }
  }

  /** Without `continue_on_failure`, the first item that fails ends the run:
      the items before it passed and reported nothing, and no item after it
      runs, so the report holds its entries alone. */
  lemma StopsAtFirstFailure(c: Chain, rec: Record, rep: Report, j: nat)
    requires !c.continueOnFailure && ConditionsMet(c.conditions, rec)
    requires j < |c.items| && Outcome(c.items[j], rec) == Done(false)
    requires forall k :: 0 <= k < j ==> Outcome(c.items[k], rec) == Done(true)
    ensures RunChain(c, rec, rep) == (Done(false), RunItem(c.items[j], rec, rep).1)
  {
    ItemsStopAtFailure(c, 0, rec, rep, j);
  }

  lemma {:induction false} ItemsStopAtFailure(c: Chain, i: nat, rec: Record, rep: Report, j: nat)
    requires !c.continueOnFailure && i <= j < |c.items|
    requires Outcome(c.items[j], rec) == Done(false)
    requires forall k :: i <= k < j ==> Outcome(c.items[k], rec) == Done(true)
    ensures RunItems(c, i, rec, rep, true) == (Done(false), RunItem(c.items[j], rec, rep).1)
    decreases j - i
  {
    ItemIgnoresReport(c.items[i], rec, rep, Empty());
    var next := RunItem(c.items[i], rec, rep).1;
    if i < j {
      ItemPassKeepsReport(c.items[i], rec, rep);
      assert next == rep;
      ItemsStopAtFailure(c, i + 1, rec, rep, j);
    } else {
      assert RunItems(c, i + 1, rec, next, false) == (Done(false), next);
    }
  }

  /** With `continue_on_failure`, every item runs, nested chains included, and
      the run answers whether all of them passed. */
  lemma ContinuesAfterFailure(c: Chain, rec: Record, rep: Report)
    requires c.continueOnFailure && ConditionsMet(c.conditions, rec)
    requires forall k :: 0 <= k < |c.items| ==> Outcome(c.items[k], rec).Done?
    ensures RunChain(c, rec, rep).1 == RunEach(c.items, rec, rep)
    ensures RunChain(c, rec, rep).0 == Done(forall k :: 0 <= k < |c.items| ==> Outcome(c.items[k], rec) == Done(true))
  {
    ItemsRunEach(c, 0, rec, rep, true);
    AllPass(c, rec, rep);
    assert c.items[0..] == c.items;
  }

  lemma {:induction false} ItemsRunEach(c: Chain, i: nat, rec: Record, rep: Report, success: bool)
    requires c.continueOnFailure && i <= |c.items|
    requires forall k :: i <= k < |c.items| ==> Outcome(c.items[k], rec).Done?
    ensures RunItems(c, i, rec, rep, success).0.Done?
    ensures RunItems(c, i, rec, rep, success).1 == RunEach(c.items[i..], rec, rep)
    decreases |c.items| - i
  {
    if i < |c.items| {
      ItemIgnoresReport(c.items[i], rec, rep, Empty());
      var (res, next) := RunItem(c.items[i], rec, rep);
      ItemsRunEach(c, i + 1, rec, next, success && res.success);
      assert c.items[i..][1..] == c.items[i + 1..];
    }
  }

  // ---------------------------------------------------------------------------
  // The imperative run
  // ---------------------------------------------------------------------------

  /** `conditions_met?`: a Presence or Absence instance per condition, and an
      early return at the first that fails. */
  method CheckConditions(conds: seq<Condition>, rec: Record) returns (met: bool)
    ensures met == ConditionsMet(conds, rec)
  {
    if |conds| == 0 {
      return true;
    }
    var i := 0;
    while i < |conds|
      invariant 0 <= i <= |conds|
      invariant forall k :: 0 <= k < i ==> ConditionHolds(conds[k], rec)
    {
      var validator := new Validator(ConditionKind(conds[i].polarity), map[]);
      var answer := validator.Validate([ConditionValue(rec, conds[i].attribute)]);
      if answer != Success(true) {
        return false;
      }
      i := i + 1;
    }
    return true;
  }

  /** `run(document)` on a chain value, with the record's report as an
      object. */
  method ExecuteChain(c: Chain, rec: Record, report: FailedValidators) returns (r: RunResult)
    requires report.Valid()
    modifies report
    ensures report.Valid()
    ensures (r, report.failed) == RunChain(c, rec, old(report.failed))
    decreases c, 1
  {
    var met := CheckConditions(c.conditions, rec);
    if !met {
      return Done(true);
    }
    r := ExecuteItems(c, rec, report);
  }

  /** The `each` loop with its `success` accumulator and `break`. */
  method ExecuteItems(c: Chain, rec: Record, report: FailedValidators) returns (r: RunResult)
    requires report.Valid()
    modifies report
    ensures report.Valid()
    ensures (r, report.failed) == RunItems(c, 0, rec, old(report.failed), true)
    decreases c, 0
  {
    var success := true;
    var i := 0;
    while i < |c.items|
      invariant 0 <= i <= |c.items| && report.Valid()
      invariant RunItems(c, i, rec, report.failed, success) == RunItems(c, 0, rec, old(report.failed), true)
      invariant c.continueOnFailure || success
    {
      ghost var before := report.failed;
      var res: RunResult;
      match c.items[i] {
        case Leaf(v) => res := Execute(v, rec, report);
        case Sub(sub) => res := ExecuteChain(sub, rec, report);
      }
      assert (res, report.failed) == RunItem(c.items[i], rec, before);
      if res.Raised? {
        return res;
      }
      success := success && res.success;
      i := i + 1;
      if !(c.continueOnFailure || success) {
        break;
      }
    }
    r := Done(success);
  }

  // ---------------------------------------------------------------------------
  // The chain object (`initialize`, `add`, `validate`, `chain`, ...)
  // ---------------------------------------------------------------------------

  /** An argument of `add`: a Validation or ValidationChain, or any other
      object. */
  datatype Addable = Is(item: Item) | Other(value: Param)

  function ItemMessage(value: Param): string
  {
    "Validator chain item has to be a Validator or another ValidationChain, " + ClassName(value) + " given"
  }

  /** The index of the first argument that is not an item. */
  function FirstOther(xs: seq<Addable>): (n: nat)
    ensures n <= |xs|
    ensures forall k :: 0 <= k < n ==> xs[k].Is?
    ensures n < |xs| ==> xs[n].Other?
  {
    if xs == [] || xs[0].Other? then 0 else 1 + FirstOther(xs[1..])
  }

  /** The items among `xs`, in order. */
  function ItemsOf(xs: seq<Addable>): seq<Item>
    decreases |xs|
  {
    if xs == [] then []
    else ItemsOf(xs[..|xs| - 1]) + (if xs[|xs| - 1].Is? then [xs[|xs| - 1].item] else [])
  }

  class ValidationChain {
    var continueOnFailure: bool
    var conditions: seq<Condition>
    var items: seq<Item>

    /** The chain as a value, which is what `run` runs. */
    function Value(): Chain
      reads this
    {
      Chain(continueOnFailure, conditions, items)
    }

    /** `initialize(params)`; a block is modelled by the calls it makes on the
        new chain afterwards. */
    constructor(s: Settings)
      ensures continueOnFailure == s.continueOnFailure
      ensures conditions == ConditionsFor(s) && items == []
    {
      continueOnFailure := s.continueOnFailure;
      conditions := [];
      items := [];
      new;
      GenerateConditions(s);
    }

    /** `generate_conditions`: the two polarities in turn, one condition per
        attribute. */
    method GenerateConditions(s: Settings)
      modifies this
      ensures conditions == old(conditions) + ConditionsFor(s)
      ensures continueOnFailure == old(continueOnFailure) && items == old(items)
    {
      var p := 0;
      while p < |Polarities|
        invariant 0 <= p <= |Polarities|
        invariant conditions == old(conditions) + ConditionsOf(s, Polarities[..p])
        invariant continueOnFailure == old(continueOnFailure) && items == old(items)
      {
        var polarity := Polarities[p];
        var attributes := AttributesFor(s, polarity);
        ghost var before := conditions;
        var j := 0;
        while j < |attributes|
          invariant 0 <= j <= |attributes|
          invariant conditions == before + Tagged(polarity, attributes[..j])
          invariant continueOnFailure == old(continueOnFailure) && items == old(items)
        {
          conditions := conditions + [Condition(polarity, attributes[j])];
          assert Tagged(polarity, attributes[..j + 1]) == Tagged(polarity, attributes[..j]) + [Condition(polarity, attributes[j])];
          j := j + 1;
        }
        assert attributes[..j] == attributes;
        assert Polarities[..p + 1][..p] == Polarities[..p];
        p := p + 1;
      }
      assert Polarities[..p] == Polarities;
    }

    /** `add(*items)`: appends the arguments in order and answers the last;
        the first argument that is no item raises, with the ones before it
        already appended. */
    method Add(xs: seq<Addable>) returns (r: Result<Option<Addable>, string>)
      modifies this
      ensures items == old(items) + ItemsOf(xs[..FirstOther(xs)])
      ensures FirstOther(xs) < |xs| ==> r == Failure(ItemMessage(xs[FirstOther(xs)].value))
      ensures FirstOther(xs) == |xs| ==> r == Success(if xs == [] then None else Some(xs[|xs| - 1]))
      ensures continueOnFailure == old(continueOnFailure) && conditions == old(conditions)
    {
      var i := 0;
      while i < |xs|
        invariant 0 <= i <= |xs| && i <= FirstOther(xs)
        invariant items == old(items) + ItemsOf(xs[..i])
        invariant continueOnFailure == old(continueOnFailure) && conditions == old(conditions)
      {
        if xs[i].Other? {
          return Failure(ItemMessage(xs[i].value));
        }
        items := items + [xs[i].item];
        assert xs[..i + 1][..i] == xs[..i];
        i := i + 1;
      }
      r := Success(if xs == [] then None else Some(xs[|xs| - 1]));
    }

    /** `validate(validator, *args)`: builds a Validation and appends it;
        a construction error raises before anything is appended. */
    method Validate(types: map<string, Kind>, validator: Param, args: seq<Param>) returns (r: Result<Item, string>)
      modifies this
      ensures Build(types, validator, args).Failure? ==>
        r == Failure(Build(types, validator, args).error) && items == old(items)
      ensures Build(types, validator, args).Success? ==>
        r == Success(Leaf(Build(types, validator, args).value)) && items == old(items) + [r.value]
      ensures continueOnFailure == old(continueOnFailure) && conditions == old(conditions)
    {
      var built := NewValidation(types, validator, args);
      if built.Failure? {
        return Failure(built.error);
      }
      var item := Leaf(built.value);
      items := items + [item];
      r := Success(item);
    }

    /** A new sub-chain with settings `s` whose block adds `body`, appended to
        this chain. */
    method AddChain(s: Settings, body: seq<Item>) returns (r: Item)
      modifies this
      ensures r == Sub(Chain(s.continueOnFailure, ConditionsFor(s), body))
      ensures items == old(items) + [r]
      ensures continueOnFailure == old(continueOnFailure) && conditions == old(conditions)
    {
      var sub := new ValidationChain(s);
      sub.items := body;
      r := Sub(sub.Value());
      items := items + [r];
    }

    /** `chain(params, &block)`. */
    method ChainWith(params: map<string, Param>, body: seq<Item>) returns (r: Item)
      modifies this
      ensures r == Sub(Chain(SettingsOf(params).continueOnFailure, ConditionsFor(SettingsOf(params)), body))
      ensures items == old(items) + [r]
      ensures continueOnFailure == old(continueOnFailure) && conditions == old(conditions)
    {
      r := AddChain(SettingsOf(params), body);
    }

    /** `if_present(*args, &block)` and `if_absent(*args, &block)`: a sub-chain
        guarded on the attribute arguments, with any trailing Hash as its
        params. */
    method IfCondition(p: Polarity, args: seq<Param>, body: seq<Item>) returns (r: Item)
      modifies this
      ensures var (attributes, params) := ExtractParams(args);
        var s := MergedSettings(p, attributes, params);
        r == Sub(Chain(s.continueOnFailure, ConditionsFor(s), body))
      ensures items == old(items) + [r]
      ensures continueOnFailure == old(continueOnFailure) && conditions == old(conditions)
    {
      var extracted := ExtractParams(args);
      r := AddChain(MergedSettings(p, extracted.0, extracted.1), body);
    }

    /** `run(document)`. */
    method Run(rec: Record, report: FailedValidators) returns (r: RunResult)
      requires report.Valid()
      modifies report
      ensures report.Valid()
      ensures (r, report.failed) == RunChain(Value(), rec, old(report.failed))
    {
      r := ExecuteChain(Value(), rec, report);
    }
  }

  /** `continue_on_failure` is false unless given a truthy value. */
  lemma ContinueOnFailureDefault(params: map<string, Param>)
    ensures "continue_on_failure" !in params ==> !SettingsOf(params).continueOnFailure
    ensures "continue_on_failure" in params && !Truthy(params["continue_on_failure"]) ==>
      !SettingsOf(params).continueOnFailure
  {
  }

  /** `if_present(a1, ..., an)` without condition keys among its params gives
      its chain exactly one Presence condition per attribute, and
      `if_absent` one Absence condition. */
  lemma IfConditionConditions(p: Polarity, attributes: seq<Param>, params: map<string, Param>)
    requires "if_present" !in params && "if_absent" !in params
    ensures ConditionsFor(MergedSettings(p, attributes, params)) == Tagged(p, attributes)
  {
    var s := MergedSettings(p, attributes, params);
    ConditionsOrder(s);
    assert Tagged(IfPresent, []) == [] && Tagged(IfAbsent, []) == [];
    if p == IfPresent {
      assert Tagged(IfPresent, attributes) + [] == Tagged(IfPresent, attributes);
    }
  }
}
