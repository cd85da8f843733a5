/**
 * internal/validator: a validator collects one error message per field name;
 * the first message recorded for a field wins.
 */
module Validator {

  /** A field name and the message a failed check records for it. */
  datatype FieldError = FieldError(key: string, message: string)

  /** The error map after `AddError(key, message)`: the key is present, a message
      already there is kept, and no other key changes. */
  function Added(errors: map<string, string>, key: string, message: string): (r: map<string, string>)
    ensures r.Keys == errors.Keys + {key}
    ensures forall k :: k in errors ==> r[k] == errors[k]
    ensures key !in errors ==> r[key] == message
  {
    if key in errors then errors else errors[key := message]
  }

  /** The error map after `Check(ok, key, message)`. */
  function Checked(errors: map<string, string>, ok: bool, key: string, message: string): (r: map<string, string>)
    ensures ok ==> r == errors
    ensures !ok ==> r == Added(errors, key, message)
  {
    if ok then errors else Added(errors, key, message)
  }

  /** The error map after recording each failed check of `failed`, in order. */
  function AddedAll(errors: map<string, string>, failed: seq<FieldError>): (r: map<string, string>)
    ensures forall k :: k in errors ==> k in r && r[k] == errors[k]
    ensures r.Keys == errors.Keys + (set e | e in failed :: e.key)
    decreases |failed|
  {
    if failed == [] then errors
    else AddedAll(Added(errors, failed[0].key, failed[0].message), failed[1..])
  }

  /** A validator is valid after a run of checks exactly when none of them failed. */
  lemma AddedAllEmpty(failed: seq<FieldError>)
    ensures AddedAll(map[], failed) == map[] <==> failed == []
  {
    if failed != [] {
      assert failed[0].key in AddedAll(map[], failed);
    }
  }

  /** A second message for a key already in the map changes nothing. */
  lemma AddErrorFirstWins(errors: map<string, string>, key: string, first: string, later: string)
    ensures Added(Added(errors, key, first), key, later) == Added(errors, key, first)
    ensures Added(Added(errors, key, first), key, later)[key] == if key in errors then errors[key] else first
  {
  }

  /** `validator.Validator`: the error map, updated in place. */
  class Validator {
    var errors: map<string, string>

    /** `validator.New()`: no errors yet. */
    constructor ()
      ensures errors == map[]
      ensures Valid()
    {
      errors := map[];
    }

    /** `Valid()`: no error recorded. */
    predicate Valid()
      reads this
      ensures Valid() <==> |errors| == 0
    {
      errors == map[]
    }

    /** `AddError(key, message)`: records `message` unless `key` already has one. */
    method AddError(key: string, message: string)
      modifies this
      ensures errors == Added(old(errors), key, message)
    {
      if key !in errors {
        errors := errors[key := message];
      }
    }

    /** `Check(ok, key, message)`: records the message when the check failed. */
    method Check(ok: bool, key: string, message: string)
      modifies this
      ensures errors == Checked(old(errors), ok, key, message)
    {
      if !ok {
        AddError(key, message);
      }
    }
  }

  /** No string occurs twice. */
  predicate NoDuplicates(values: seq<string>)
  {
    forall i, j :: 0 <= i < j < |values| ==> values[i] != values[j]
  }

  /** `validator.Unique(values)`: collects the values into a set and compares sizes. */
  method Unique(values: seq<string>) returns (unique: bool)
    ensures unique <==> NoDuplicates(values)
  {
    var seen: set<string> := {};
    for i := 0 to |values|
      invariant seen == set k | 0 <= k < i :: values[k]
      invariant |seen| <= i
      invariant |seen| == i <==> NoDuplicates(values[..i])
    {
      var v := values[i];
      ghost var prefix := values[..i + 1];
      if v in seen {
        var k :| 0 <= k < i && values[k] == v;
        assert prefix[k] == prefix[i];
      } else {
        assert forall k :: 0 <= k < i ==> prefix[k] != v;
        assert prefix[..i] == values[..i];
      }
      seen := seen + {v};
    }
    assert values[..|values|] == values;
    unique := |values| == |seen|;
  }

  /** `validator.In(value, list...)`: a scan with early return on the first match. */
  method In(value: string, list: seq<string>) returns (found: bool)
    ensures found <==> exists i :: 0 <= i < |list| && list[i] == value
  {
    for i := 0 to |list|
      invariant forall k :: 0 <= k < i ==> list[k] != value
    {
      if value == list[i] {
        return true;
      }
    }
    return false;
  }
}
