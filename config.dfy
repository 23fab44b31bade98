/**
  The settings of the AI search (`app/js/ai/config.js`): the fixed set of
  known keys with their defaults, the `secret.env` parser that overwrites
  them line by line, and the `get` / `set` / `getAll` accessors.

  `isNaN` and `parseFloat` are taken as given: the parser receives the
  numeric test and the number conversion as parameters.
*/
module AiConfig {
  import opened Text
  import opened Base

  /** A setting: a string, a boolean, or a number. */
  datatype Value = String(s: string) | Flag(b: bool) | Number(x: real)

  /** The known keys and their defaults. */
  const Defaults: map<string, Value> := map[
    "OPENAI_API_KEY" := String(""),
    "OPENAI_MODEL" := String("gpt-4.1-mini-2025-04-14"),
    "OPENAI_TEMPERATURE" := Number(0.0),
    "OPENAI_MAX_RESULTS" := Number(20.0),
    "OPENAI_MAX_TOKENS" := Number(1000.0)
  ]

  /** The value a non-empty setting text becomes: the booleans by name, a
      number when the text is numeric, otherwise the text itself. */
  function Convert(value: string, isNumeric: string -> bool, parseNumber: string -> real): (v: Value)
    ensures value == "true" ==> v == Flag(true)
    ensures value == "false" ==> v == Flag(false)
    ensures value != "true" && value != "false" && isNumeric(value) ==> v == Number(parseNumber(value))
    ensures v.String? <==> value != "true" && value != "false" && !isNumeric(value)
    ensures v.String? ==> v.s == value
  {
    if value == "true" then Flag(true)
    else if value == "false" then Flag(false)
    else if isNumeric(value) then Number(parseNumber(value))
    else String(value)
  }

  /** The key of a trimmed line: the text before its first '='. */
  function KeyOf(line: string): string
  {
    Split(line, '=')[0]
  }

  /** The untrimmed value of a trimmed line: everything after its first '='
      (`valueParts.join('=')`). */
  function RawValueOf(line: string): string
  {
    Join(Split(line, '=')[1..], '=')
  }

  /** The key is the text up to the first '=', and the value text is the
      rest of the line; a line without '=' is all key. */
  lemma KeyValueSplit(line: string)
    ensures '=' !in KeyOf(line)
    ensures '=' in line ==> line == KeyOf(line) + "=" + RawValueOf(line)
    ensures '=' !in line ==> KeyOf(line) == line && RawValueOf(line) == ""
  {
    var parts := Split(line, '=');
    JoinSplit(line, '=');
    if '=' !in line {
      SplitNoSep(line, '=');
    }
  }

  /** What one line of `secret.env` sets, if anything: nothing for a blank
      line, a comment, an empty key or an empty value. */
  function ParseLine(line: string, isNumeric: string -> bool, parseNumber: string -> real): (r: Option<(string, Value)>)
  {
    var t := JsTrim(line);
    if t == "" || "#" <= t then None
    else
      var key := KeyOf(t);
      var value := JsTrim(RawValueOf(t));
      if key == "" || value == "" then None
      else Some((key, Convert(value, isNumeric, parseNumber)))
  }

  /** Blank lines and comments set nothing; a line that sets something has
      a non-empty key without '=' that starts the trimmed line, followed by
      '=' and a value whose trimmed text is not empty. */
  lemma ParseLineSpec(line: string, isNumeric: string -> bool, parseNumber: string -> real)
    ensures JsTrim(line) == "" || "#" <= JsTrim(line) ==> ParseLine(line, isNumeric, parseNumber).None?
    ensures ParseLine(line, isNumeric, parseNumber).Some? ==>
              var t := JsTrim(line);
              var key := ParseLine(line, isNumeric, parseNumber).value.0;
              && key != "" && '=' !in key
              && t == key + "=" + RawValueOf(t)
              && JsTrim(RawValueOf(t)) != ""
              && ParseLine(line, isNumeric, parseNumber).value.1 == Convert(JsTrim(RawValueOf(t)), isNumeric, parseNumber)
  {
    var t := JsTrim(line);
    KeyValueSplit(t);
  }

  /** One line applied to the settings: only a key that is already known is
      written. */
  function Step(m: map<string, Value>, line: string, isNumeric: string -> bool, parseNumber: string -> real): map<string, Value>
  {
    match ParseLine(line, isNumeric, parseNumber)
    case None => m
    case Some((key, value)) => if key in m then m[key := value] else m
  }

  /** The lines applied in order. */
  function Applied(m: map<string, Value>, lines: seq<string>, isNumeric: string -> bool, parseNumber: string -> real): map<string, Value>
  {
    if lines == [] then m
    else Step(Applied(m, lines[..|lines| - 1], isNumeric, parseNumber), lines[|lines| - 1], isNumeric, parseNumber)
  }

  lemma AppliedSnoc(m: map<string, Value>, lines: seq<string>, i: nat, isNumeric: string -> bool, parseNumber: string -> real)
    requires i < |lines|
    ensures Applied(m, lines[..i + 1], isNumeric, parseNumber) == Step(Applied(m, lines[..i], isNumeric, parseNumber), lines[i], isNumeric, parseNumber)
  {
    assert lines[..i + 1][..i] == lines[..i];
  }

  /** What one line does to a known key. */
  lemma StepOn(m: map<string, Value>, line: string, k: string, isNumeric: string -> bool, parseNumber: string -> real)
    requires k in m
    ensures Step(m, line, isNumeric, parseNumber).Keys == m.Keys
    ensures Sets(line, k, isNumeric, parseNumber) ==> Step(m, line, isNumeric, parseNumber)[k] == ParseLine(line, isNumeric, parseNumber).value.1
    ensures !Sets(line, k, isNumeric, parseNumber) ==> Step(m, line, isNumeric, parseNumber)[k] == m[k]
  {
  }

  /** Whether a line sets the key `k`. */
  predicate Sets(line: string, k: string, isNumeric: string -> bool, parseNumber: string -> real)
  {
    var p := ParseLine(line, isNumeric, parseNumber);
    p.Some? && p.value.0 == k
  }

  /** Parsing never adds or removes a key. */
  lemma {:induction false} AppliedKeys(m: map<string, Value>, lines: seq<string>, isNumeric: string -> bool, parseNumber: string -> real)
    ensures Applied(m, lines, isNumeric, parseNumber).Keys == m.Keys
  {
    if lines != [] {
      AppliedKeys(m, lines[..|lines| - 1], isNumeric, parseNumber);
    }
  }

  /** A key that no line sets keeps its value. */
  lemma {:induction false} AppliedUnset(m: map<string, Value>, lines: seq<string>, k: string,
                                        isNumeric: string -> bool, parseNumber: string -> real)
    requires k in m
    requires forall i :: 0 <= i < |lines| ==> !Sets(lines[i], k, isNumeric, parseNumber)
    ensures k in Applied(m, lines, isNumeric, parseNumber) && Applied(m, lines, isNumeric, parseNumber)[k] == m[k]
  {
    if lines != [] {
      var init := lines[..|lines| - 1];
      AppliedUnset(m, init, k, isNumeric, parseNumber);
      AppliedKeys(m, init, isNumeric, parseNumber);
      assert !Sets(lines[|lines| - 1], k, isNumeric, parseNumber);
      StepOn(Applied(m, init, isNumeric, parseNumber), lines[|lines| - 1], k, isNumeric, parseNumber);
    }
  }

  /** The last line that sets a known key decides its value. */
  lemma {:induction false} AppliedLastWins(m: map<string, Value>, lines: seq<string>, i: nat, k: string,
                                           isNumeric: string -> bool, parseNumber: string -> real)
    requires k in m && i < |lines| && Sets(lines[i], k, isNumeric, parseNumber)
    requires forall j :: i < j < |lines| ==> !Sets(lines[j], k, isNumeric, parseNumber)
    ensures k in Applied(m, lines, isNumeric, parseNumber)
    ensures Applied(m, lines, isNumeric, parseNumber)[k] == ParseLine(lines[i], isNumeric, parseNumber).value.1
  {
    var init := lines[..|lines| - 1];
    var last := lines[|lines| - 1];
    var before := Applied(m, init, isNumeric, parseNumber);
    assert Applied(m, lines, isNumeric, parseNumber) == Step(before, last, isNumeric, parseNumber);
    AppliedKeys(m, init, isNumeric, parseNumber);
    StepOn(before, last, k, isNumeric, parseNumber);
    if i < |lines| - 1 {
      AppliedLastWins(m, init, i, k, isNumeric, parseNumber);
      assert !Sets(last, k, isNumeric, parseNumber);
    }
  }

  class Config {
    var entries: map<string, Value>

    /** The settings start at their defaults. */
    constructor ()
      ensures entries == Defaults
    {
      entries := Defaults;
    }

    /** `parseEnvFile(text)`: every line of the text applied in order. */
    method ParseEnvFile(text: string, isNumeric: string -> bool, parseNumber: string -> real)
      modifies this
      ensures entries == Applied(old(entries), Split(text, '\n'), isNumeric, parseNumber)
      ensures entries.Keys == old(entries).Keys
    {
      var lines := Split(text, '\n');
      var i := 0;
      while i < |lines|
        invariant 0 <= i <= |lines|
        invariant entries == Applied(old(entries), lines[..i], isNumeric, parseNumber)
      {
        AppliedSnoc(old(entries), lines, i, isNumeric, parseNumber);
        ghost var before := entries;
        var line := JsTrim(lines[i]);
        if line != "" && !("#" <= line) {
          var key := KeyOf(line);
          var value := JsTrim(RawValueOf(line));
          if key != "" && value != "" {
            var v: Value;
            if value == "true" {
              v := Flag(true);
            } else if value == "false" {
              v := Flag(false);
            } else if isNumeric(value) {
              v := Number(parseNumber(value));
            } else {
              v := String(value);
            }
            if key in entries {
              entries := entries[key := v];
            }
          }
        }
        assert entries == Step(before, lines[i], isNumeric, parseNumber);
        i := i + 1;
      }
      assert lines[..|lines|] == lines;
      AppliedKeys(old(entries), lines, isNumeric, parseNumber);
    }

    /** `get(key)`: the setting, or nothing (`undefined`) for an unknown key. */
    function Get(key: string): (r: Option<Value>)
      reads this
      ensures r.Some? <==> key in entries
      ensures r.Some? ==> r.value == entries[key]
    {
      if key in entries then Some(entries[key]) else None
    }

    /** `getAll()`: a copy of every setting. */
    method GetAll() returns (r: map<string, Value>)
      ensures r == entries
    {
      r := entries;
    }

    /** `set(key, value)`: a known key gets the value; an unknown one is
        ignored. */
    method Set(key: string, value: Value)
      modifies this
      ensures key in old(entries) ==> entries == old(entries)[key := value]
      ensures key !in old(entries) ==> entries == old(entries)
      ensures entries.Keys == old(entries).Keys
    {
      if key in entries {
        entries := entries[key := value];
      }
    }
  }
}
