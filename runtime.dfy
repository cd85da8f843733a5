/**
 * internal/data/runtime.go: a film's running time in minutes, an `int32`,
 * travels in JSON as the string `"<n> mins"`.
 */
module RuntimeCodec {
  import opened Wrappers
  import opened Decimal
  import opened Text

  /** `ErrInvalidRuntimeFormat`, the only error decoding reports. */
  datatype RuntimeError = InvalidRuntimeFormat

  /** Text that `strconv.Quote` leaves as it is: printable ASCII other than
      the double quote and the backslash. */
  predicate Plain(t: string)
  {
    forall i :: 0 <= i < |t| ==> ' ' <= t[i] <= '~' && t[i] != '"' && t[i] != '\\'
  }

  /** `strconv.Quote` on plain text: the text between double quotes. */
  function Quote(t: string): (q: string)
    requires Plain(t)
    ensures Unquote(q) == Some(t)
  {
    var q := "\"" + t + "\"";
    assert q[1..|q| - 1] == t;
    q
  }

  /** `strconv.Unquote` on a double-quoted string without escape sequences: the
      text between the quotes, which may hold no further quote and no newline.
      Escape sequences are not decoded, so a backslash is rejected. */
  function Unquote(s: string): (r: Option<string>)
    ensures r.Some? ==> s == "\"" + r.value + "\""
    ensures r.Some? ==> '"' !in r.value && '\\' !in r.value && '\n' !in r.value
  {
    if |s| >= 2 && s[0] == '"' && s[|s| - 1] == '"' then
      var body := s[1..|s| - 1];
      if '"' in body || '\\' in body || '\n' in body then None
      else
        assert s == "\"" + body + "\"";
        Some(body)
    else None
  }

  /** `Runtime.MarshalJSON`: the quoted text `"<n> mins"`; it cannot fail. */
  function MarshalJSON(r: Int32): (json: string)
    ensures Unquote(json) == Some(FormatInt(r) + " mins")
  {
    var text := FormatInt(r) + " mins";
    FormatIntChars(r);
    assert Plain(text);
    Quote(text)
  }

  /** What `(*Runtime).UnmarshalJSON` decodes: unquote, split on single spaces into
      exactly a number and `mins`, and parse the number as a base-10 `int32`. */
  function ParseRuntime(json: string): (r: Result<Int32, RuntimeError>)
    ensures r.Success? ==> RuntimeFormat(json) && r.value == ParseInt(json[1..|json| - 6], Bits32).value
  {
    match Unquote(json)
    case None => Failure(InvalidRuntimeFormat)
    case Some(text) =>
      var parts := Split(text, ' ');
      if |parts| != 2 || parts[1] != "mins" then Failure(InvalidRuntimeFormat)
      else
        match ParseInt(parts[0], Bits32)
        case None => Failure(InvalidRuntimeFormat)
        case Some(i) =>
          SplitInTwo(text, ' ', parts[0], "mins");
          assert json == "\"" + parts[0] + " mins" + "\"";
          assert json[1..|json| - 6] == parts[0];
          Success(i)
  }

  /** The accepted inputs, described directly: a double quote, a base-10 `int32`
      numeral, the text ` mins` and a closing double quote. */
  predicate RuntimeFormat(json: string)
  {
    && |json| >= 7
    && json[0] == '"' && json[|json| - 1] == '"'
    && json[|json| - 6..|json| - 1] == " mins"
    && ParseInt(json[1..|json| - 6], Bits32).Some?
  }

  /** Decoding succeeds exactly on `RuntimeFormat`, with the numeral's value. */
  lemma ParseRuntimeExactly(json: string)
    ensures ParseRuntime(json).Success? <==> RuntimeFormat(json)
    ensures RuntimeFormat(json) ==> ParseRuntime(json).value == ParseInt(json[1..|json| - 6], Bits32).value
  {
    if RuntimeFormat(json) {
      RuntimeFormatDecodes(json);
    }
  }

  lemma RuntimeFormatDecodes(json: string)
    requires RuntimeFormat(json)
    ensures ParseRuntime(json) == Success(ParseInt(json[1..|json| - 6], Bits32).value)
  {
    var number := json[1..|json| - 6];
    var text := number + " mins";
    assert json[1..|json| - 1] == text;
    assert forall c :: c in number ==> c == '+' || c == '-' || IsDigit(c);
    assert Unquote(json) == Some(text);
    SplitInTwo(text, ' ', number, "mins");
  }

  /** Decoding what `MarshalJSON` produced gives back the same running time. */
  lemma MarshalRoundTrip(r: Int32)
    ensures ParseRuntime(MarshalJSON(r)) == Success(r)
  {
    var number := FormatInt(r);
    FormatIntChars(r);
    SplitInTwo(number + " mins", ' ', number, "mins");
    ParseFormatRoundTrip(r, Bits32);
  }

  /** Two spaces between the number and `mins` give three pieces and are rejected. */
  lemma DoubleSpaceRejected()
    ensures ParseRuntime("\"90  mins\"").Failure?
  {
    var json := "\"90  mins\"";
    assert json[1..|json| - 1] == "90  mins";
    assert Unquote(json) == Some("90  mins");
    SplitCount("90  mins", ' ');
    assert multiset("90  mins")[' '] == 2;
  }

  /** A `Runtime` variable, which `UnmarshalJSON` overwrites in place. */
  class Runtime {
    var value: Int32

    constructor (value: Int32)
      ensures this.value == value
    {
      this.value := value;
    }

    /** `(*Runtime).UnmarshalJSON`: every failed step returns the error before the
        variable is written, so on an error the variable keeps its old value. */
    method UnmarshalJSON(json: string) returns (err: Option<RuntimeError>)
      modifies this
      ensures ParseRuntime(json).Success? ==> err == None && value == ParseRuntime(json).value
      ensures ParseRuntime(json).Failure? ==> err == Some(InvalidRuntimeFormat) && value == old(value)
    {
      var unquoted := Unquote(json);
      if unquoted.None? {
        return Some(InvalidRuntimeFormat);
      }
      var parts := Split(unquoted.value, ' ');
      if |parts| != 2 || parts[1] != "mins" {
        return Some(InvalidRuntimeFormat);
      }
      var i := ParseInt(parts[0], Bits32);
      if i.None? {
        return Some(InvalidRuntimeFormat);
      }
      value := i.value;
      return None;
    }
  }
}
