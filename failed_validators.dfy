/** The failure report of lib/vandrake/failed_validators.rb: an append-only
    store of validation failures in two buckets, one list per attribute and
    one model-wide list for failures that involve several attributes. */
module Failures {
  import opened Wrappers

  /** An entry of an attribute's list: `{validator, error_code, message}`. */
  datatype Entry = Entry(validator: string, errorCode: Option<string>, message: string)

  /** An entry of the `:model` list, which also names the attributes. */
  datatype ModelEntry =
    ModelEntry(validator: string, attributes: seq<string>, errorCode: Option<string>, message: string)

  /** The hash `list` returns. Both top-level keys are created lazily, so each
      is None until the first failure of its kind; the attribute buckets are
      keyed by attribute name, and a failure recorded for no attribute at all
      lands under the nil key (`attributes[0]` of an empty list), here None. */
  datatype Report = Report(
    attribute: Option<map<Option<string>, seq<Entry>>>,
    model: Option<seq<ModelEntry>>)

  /** What `initialize` and `clear` leave: `{}`. */
  function Empty(): Report
  {
    Report(None, None)
  }

  predicate IsEmpty(r: Report)
  {
    r.attribute.None? && r.model.None?
  }

  /** The attribute buckets, `{}` before the first one exists. */
  function Buckets(r: Report): map<Option<string>, seq<Entry>>
  {
    if r.attribute.Some? then r.attribute.value else map[]
  }

  /** The list under `key`, `[]` when it does not exist. */
  function Bucket(r: Report, key: Option<string>): seq<Entry>
  {
    if key in Buckets(r) then Buckets(r)[key] else []
  }

  /** The model-wide list, `[]` before it exists. */
  function ModelList(r: Report): seq<ModelEntry>
  {
    if r.model.Some? then r.model.value else []
  }

  /** The bucket a failure on `attributes` is filed under. */
  function KeyOf(attributes: seq<string>): Option<string>
  {
    if attributes == [] then None else Some(attributes[0])
  }

  /** Every key that exists holds at least one entry: keys are only created by
      the append that fills them. */
  predicate WellFormed(r: Report)
  {
    (r.attribute.Some? ==>
       |r.attribute.value| > 0 && forall k :: k in r.attribute.value ==> |r.attribute.value[k]| > 0)
    && (r.model.Some? ==> |r.model.value| > 0)
  }

  /** `add(attributes, validator_name, message, error_code)` on the report `r`. */
  function Appended(r: Report, attributes: seq<string>, validator: string,
                    message: string, errorCode: Option<string>): Report
  {
    if |attributes| > 1 then
      r.(model := Some(ModelList(r) + [ModelEntry(validator, attributes, errorCode, message)]))
    else
      var key := KeyOf(attributes);
      r.(attribute := Some(Buckets(r)[key := Bucket(r, key) + [Entry(validator, errorCode, message)]]))
  }

  /** `s` holds everything `r` holds, in the same order, and maybe more. */
  predicate Extends(r: Report, s: Report)
  {
    ModelList(r) <= ModelList(s)
    && forall k :: k in Buckets(r) ==> k in Buckets(s) && Buckets(r)[k] <= Buckets(s)[k]
  }

  lemma ExtendsReflexive(r: Report)
    ensures Extends(r, r)
  {
  }

  lemma ExtendsTransitive(r: Report, s: Report, t: Report)
    requires Extends(r, s) && Extends(s, t)
    ensures Extends(r, t)
  {
    forall k | k in Buckets(r)
      ensures k in Buckets(t) && Buckets(r)[k] <= Buckets(t)[k]
    {
      assert Buckets(s)[k] <= Buckets(t)[k];
    }
  }

  /** Extending a report that holds something keeps it non-empty. */
  lemma ExtendsNotEmpty(r: Report, s: Report)
    requires WellFormed(r) && !IsEmpty(r) && Extends(r, s)
    ensures !IsEmpty(s)
  {
    if r.model.None? {
      var k :| k in r.attribute.value;
      assert k in Buckets(s);
    }
  }

  /** A failure on several attributes appends one entry to the model list and
      changes nothing else. */
  lemma AppendedToModel(r: Report, attributes: seq<string>, validator: string,
                        message: string, errorCode: Option<string>)
    requires |attributes| > 1
    ensures var s := Appended(r, attributes, validator, message, errorCode);
      ModelList(s) == ModelList(r) + [ModelEntry(validator, attributes, errorCode, message)]
      && s.attribute == r.attribute
  {
  }

  /** A failure on one attribute (or none) appends one entry to that
      attribute's list, creating it if need be, and changes nothing else. */
  lemma AppendedToAttribute(r: Report, attributes: seq<string>, validator: string,
                            message: string, errorCode: Option<string>)
    requires |attributes| <= 1
    ensures var s := Appended(r, attributes, validator, message, errorCode);
      Bucket(s, KeyOf(attributes)) == Bucket(r, KeyOf(attributes)) + [Entry(validator, errorCode, message)]
      && (forall k :: k != KeyOf(attributes) ==> Bucket(s, k) == Bucket(r, k))
      && Buckets(s).Keys == Buckets(r).Keys + {KeyOf(attributes)}
      && s.model == r.model
  {
  }

  /** The first failure creates the list it is filed in. */
  lemma AppendedToEmpty(attributes: seq<string>, validator: string, message: string, errorCode: Option<string>)
    ensures |attributes| > 1 ==>
      Appended(Empty(), attributes, validator, message, errorCode)
        == Report(None, Some([ModelEntry(validator, attributes, errorCode, message)]))
    ensures |attributes| <= 1 ==>
      Appended(Empty(), attributes, validator, message, errorCode)
        == Report(Some(map[KeyOf(attributes) := [Entry(validator, errorCode, message)]]), None)
  {
    if |attributes| <= 1 {
      var key, e := KeyOf(attributes), Entry(validator, errorCode, message);
      assert Bucket(Empty(), key) + [e] == [e];
      assert Buckets(Empty())[key := [e]] == map[key := [e]];
    } else {
      assert ModelList(Empty()) + [ModelEntry(validator, attributes, errorCode, message)]
        == [ModelEntry(validator, attributes, errorCode, message)];
    }
  }

  /** Appending keeps every earlier entry in place (duplicates included). */
  lemma AppendedExtends(r: Report, attributes: seq<string>, validator: string,
                        message: string, errorCode: Option<string>)
    ensures Extends(r, Appended(r, attributes, validator, message, errorCode))
  {
  }

  lemma AppendedWellFormed(r: Report, attributes: seq<string>, validator: string,
                      message: string, errorCode: Option<string>)
    requires WellFormed(r)
    ensures WellFormed(Appended(r, attributes, validator, message, errorCode))
  {
  }

  lemma AppendedNotEmpty(r: Report, attributes: seq<string>, validator: string,
                         message: string, errorCode: Option<string>)
    ensures !IsEmpty(Appended(r, attributes, validator, message, errorCode))
  {
  }

  /** One call of `add`. */
  datatype Addition = Addition(attributes: seq<string>, validator: string,
                               message: string, errorCode: Option<string>)

  /** The report after the calls `fs`, in order. */
  function AppendedAll(r: Report, fs: seq<Addition>): Report
    decreases |fs|
  {
    if fs == [] then r
    else
      var f := fs[|fs| - 1];
      Appended(AppendedAll(r, fs[..|fs| - 1]), f.attributes, f.validator, f.message, f.errorCode)
  }

  /** `list` is empty exactly when no `add` happened since the report was
      created or cleared. */
  lemma EmptyIffNothingAdded(fs: seq<Addition>)
    ensures IsEmpty(AppendedAll(Empty(), fs)) <==> fs == []
  {
    if fs != [] {
      var f := fs[|fs| - 1];
      AppendedNotEmpty(AppendedAll(Empty(), fs[..|fs| - 1]), f.attributes, f.validator, f.message, f.errorCode);
    }
  }

  /** A report reached by appends is well formed and extends where it
      started. */
  lemma {:induction false} AppendedAllExtends(r: Report, fs: seq<Addition>)
    requires WellFormed(r)
    ensures WellFormed(AppendedAll(r, fs)) && Extends(r, AppendedAll(r, fs))
  {
    if fs == [] {
      ExtendsReflexive(r);
    } else {
      var f := fs[|fs| - 1];
      var mid := AppendedAll(r, fs[..|fs| - 1]);
      AppendedAllExtends(r, fs[..|fs| - 1]);
      AppendedWellFormed(mid, f.attributes, f.validator, f.message, f.errorCode);
      AppendedExtends(mid, f.attributes, f.validator, f.message, f.errorCode);
      ExtendsTransitive(r, mid, AppendedAll(r, fs));
    }
  }

  /** The `FailedValidators` object: the hash it changes in place. */
  class FailedValidators {
    var failed: Report

    predicate Valid()
      reads this
    {
      WellFormed(failed)
    }

    /** `initialize`: an empty hash. */
    constructor()
      ensures failed == Empty() && Valid()
    {
      failed := Report(None, None);
    }

    /** `add`: creates the bucket it needs with `||=` and appends with `<<`. */
    method Add(attributes: seq<string>, validator: string, message: string, errorCode: Option<string>)
      requires Valid()
      modifies this
      ensures failed == Appended(old(failed), attributes, validator, message, errorCode)
      ensures Valid() && Extends(old(failed), failed) && !IsEmpty(failed)
    {
      AppendedWellFormed(failed, attributes, validator, message, errorCode);
      AppendedExtends(failed, attributes, validator, message, errorCode);
      var entry := Entry(validator, errorCode, message);
      if |attributes| > 1 {
        var list := if failed.model.Some? then failed.model.value else [];
        failed := failed.(model := Some(list + [ModelEntry(validator, attributes, errorCode, message)]));
      } else {
        var attribute := if attributes == [] then None else Some(attributes[0]);
        var buckets := if failed.attribute.Some? then failed.attribute.value else map[];
        var bucket := if attribute in buckets then buckets[attribute] else [];
        failed := failed.(attribute := Some(buckets[attribute := bucket + [entry]]));
      }
    }

    /** `clear`: a new empty hash. */
    method Clear()
      modifies this
      ensures failed == Empty() && Valid()
    {
      failed := Report(None, None);
    }

    /** `list`: the hash itself. */
    method List() returns (r: Report)
      ensures r == failed
    {
      r := failed;
    }
  }
}
