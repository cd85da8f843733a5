/**
 * cmd/api/helpers.go: reading the id route parameter and typed values from
 * the query string, with defaults for absent values.
 */
module Helpers {
  import opened Wrappers
  import opened Decimal
  import opened Text
  import opened Http
  import V = Validator

  /** `url.Values`, the parsed query string. */
  type Query = Values

  /** `readIDParam`, given the router's `id` parameter ("" when absent): the id when
      it is a base-10 `int64` of at least 1, otherwise 0 and an error. */
  function ReadIDParam(param: string): (r: (Int64, Option<string>))
    ensures r.1.None? <==> ParseInt(param, Bits64).Some? && ParseInt(param, Bits64).value >= 1
    ensures r.1.None? ==> r.0 == ParseInt(param, Bits64).value >= 1
    ensures r.1.Some? ==> r.0 == 0 && r.1.value == "invalid id parameter"
  {
    match ParseInt(param, Bits64)
    case Some(id) => if id < 1 then (0, Some("invalid id parameter")) else (id, None)
    case None => (0, Some("invalid id parameter"))
  }

  /** Every positive `int64`, written in decimal, is read back as that id; zero and
      negative values are refused. */
  lemma ReadIDParamOfFormatted(id: Int64)
    ensures id >= 1 ==> ReadIDParam(FormatInt(id)) == (id, None)
    ensures id < 1 ==> ReadIDParam(FormatInt(id)) == (0, Some("invalid id parameter"))
  {
    ParseFormatRoundTrip(id, Bits64);
  }

  /** `readString`: the query value, or the default when it is empty or absent. */
  function ReadString(qs: Query, key: string, defaultString: string): (s: string)
    ensures FirstValue(qs, key) == "" ==> s == defaultString
    ensures FirstValue(qs, key) != "" ==> s == FirstValue(qs, key)
  {
    var s := FirstValue(qs, key);
    if s == "" then defaultString else s
  }

  /** `readCSV`: the default for an empty value, otherwise the comma-separated pieces,
      one more than there are commas, none containing a comma, and joining back to
      the value. */
  function ReadCSV(qs: Query, key: string, defaultValue: seq<string>): (r: seq<string>)
    ensures FirstValue(qs, key) == "" ==> r == defaultValue
    ensures FirstValue(qs, key) != "" ==> |r| == multiset(FirstValue(qs, key))[','] + 1
    ensures FirstValue(qs, key) != "" ==> Join(r, ',') == FirstValue(qs, key)
    ensures FirstValue(qs, key) != "" ==> forall p :: p in r ==> ',' !in p
  {
    var csv := FirstValue(qs, key);
    if csv == "" then defaultValue
    else
      SplitCount(csv, ',');
      JoinSplit(csv, ',');
      SplitPiecesLackSep(csv, ',');
      Split(csv, ',')
  }

  /** `readInt`: the default for an empty value; for a value that is not a base-10
      `int` the default, after recording an error for the key on the validator;
      otherwise the integer, leaving the validator alone. */
  method ReadInt(qs: Query, key: string, defaultValue: Int64, v: V.Validator) returns (n: Int64)
    modifies v
    ensures FirstValue(qs, key) == "" ==> n == defaultValue && v.errors == old(v.errors)
    ensures FirstValue(qs, key) != "" && ParseInt(FirstValue(qs, key), Bits64).None? ==>
      n == defaultValue && v.errors == V.Added(old(v.errors), key, "must be an integer value")
    ensures FirstValue(qs, key) != "" && ParseInt(FirstValue(qs, key), Bits64).Some? ==>
      n == ParseInt(FirstValue(qs, key), Bits64).value && v.errors == old(v.errors)
  {
    var s := FirstValue(qs, key);
    if s == "" {
      return defaultValue;
    }
    var i := ParseInt(s, Bits64);
    if i.None? {
      v.AddError(key, "must be an integer value");
      return defaultValue;
    }
    return i.value;
  }
}
