/** `Config.get` (config.py): an environment value has the form "type:payload"; the
    type decides how the payload is read, and every other shape is an error. */
module Config {
  import opened Common

  datatype Setting = StrSetting(s: string) | IntSetting(n: int) | BoolSetting(b: bool)

  datatype ConfigError =
    | NotDefined(name: string)        // LookupError: "`name` is not defined in config."
    | InvalidBoolean(name: string)    // LookupError: "`name` is using an invalid boolean value in config."
    | InvalidType(name: string)       // LookupError: "`name` has an invalid type in config."
    | NotEnoughValues                 // ValueError from unpacking a split without ':'
    | InvalidLiteral(payload: string) // ValueError from int(payload)

  predicate AllDigits(s: string)
  {
    forall i :: 0 <= i < |s| ==> IsDigit(s[i])
  }

  /** The value of a run of decimal digits. */
  function DigitsValue(ds: string): nat
    requires AllDigits(ds)
    decreases |ds|
  {
    if ds == [] then 0 else DigitsValue(ds[..|ds| - 1]) * 10 + (ds[|ds| - 1] as int - '0' as int)
  }

  /** `int(s)` for base 10: an optional sign followed by at least one ASCII digit. */
  function ParseInt(s: string): Option<int>
  {
    if |s| > 0 && (s[0] == '-' || s[0] == '+') then
      var ds := s[1..];
      if |ds| > 0 && AllDigits(ds) then
        var m: int := DigitsValue(ds);
        Some(if s[0] == '-' then -m else m)
      else None
    else if |s| > 0 && AllDigits(s) then Some(DigitsValue(s))
    else None
  }

  /** Reading back the digits `str` writes gives the number. */
  lemma {:induction false} DigitsRoundTrip(n: nat)
    ensures AllDigits(NatDigits(n)) && DigitsValue(NatDigits(n)) == n
    decreases n
  {
    if n >= 10 {
      DigitsRoundTrip(n / 10);
      var ds := NatDigits(n);
      assert ds[..|ds| - 1] == NatDigits(n / 10);
    }
  }

  /** `int(str(n)) == n`. */
  lemma ParseDecimal(n: int)
    ensures ParseInt(Decimal(n)) == Some(n)
  {
    if n < 0 {
      DigitsRoundTrip(-n);
      assert Decimal(n)[1..] == NatDigits(-n);
    } else {
      DigitsRoundTrip(n);
    }
  }

  /** A payload with any character other than a digit, except a sign in front, is
      not an integer; neither is the empty payload nor a lone sign. */
  lemma ParseRejects(s: string)
    ensures s == "" || s == "-" || s == "+" ==> ParseInt(s) == None
    ensures forall i :: 0 < i < |s| && !IsDigit(s[i]) ==> ParseInt(s) == None
    ensures |s| > 0 && !IsDigit(s[0]) && s[0] != '-' && s[0] != '+' ==> ParseInt(s) == None
  {
    forall i | 0 < i < |s| && !IsDigit(s[i])
      ensures ParseInt(s) == None
    {
      assert s[1..][i - 1] == s[i];
    }
  }

  /** `Config.get(name)` against the environment `env`. */
  function Get(env: map<string, string>, name: string): Result<Setting, ConfigError>
  {
    if name !in env then Err(NotDefined(name))
    else match IndexOf(env[name], ':')
      case None => Err(NotEnoughValues)
      case Some(i) =>
        var t, v := env[name][..i], env[name][i + 1..];
        if t == "str" then Ok(StrSetting(v))
        else if t == "int" then
          match ParseInt(v)
          case Some(n) => Ok(IntSetting(n))
          case None => Err(InvalidLiteral(v))
        else if t == "bool" then
          if v == "True" || v == "true" then Ok(BoolSetting(true))
          else if v == "False" || v == "false" then Ok(BoolSetting(false))
          else Err(InvalidBoolean(name))
        else Err(InvalidType(name))
  }

  /** "type:payload" splits at its first ':' into exactly `type` and `payload`. */
  lemma SplitsAtFirstColon(t: string, v: string)
    requires ':' !in t
    ensures IndexOf(t + ":" + v, ':') == Some(|t|)
    ensures (t + ":" + v)[..|t|] == t && (t + ":" + v)[|t| + 1..] == v
  {
    IndexOfAfter(t, ':', v);
    assert t + ":" + v == t + [':'] + v;
  }

  /** The payload of a "str" value comes back unchanged, colons included. */
  lemma GetStr(env: map<string, string>, name: string, v: string)
    requires name in env && env[name] == "str:" + v
    ensures Get(env, name) == Ok(StrSetting(v))
  {
    assert "str:" + v == "str" + ":" + v;
    SplitsAtFirstColon("str", v);
  }

  /** An "int" value written by `str` reads back as the same number; any other payload
      that `int` refuses raises its ValueError. */
  lemma GetInt(env: map<string, string>, name: string, v: string)
    requires name in env && env[name] == "int:" + v
    ensures ParseInt(v).Some? ==> Get(env, name) == Ok(IntSetting(ParseInt(v).value))
    ensures ParseInt(v).None? ==> Get(env, name) == Err(InvalidLiteral(v))
    ensures forall n :: v == Decimal(n) ==> Get(env, name) == Ok(IntSetting(n))
  {
    assert "int:" + v == "int" + ":" + v;
    SplitsAtFirstColon("int", v);
    forall n | v == Decimal(n)
      ensures Get(env, name) == Ok(IntSetting(n))
    {
      ParseDecimal(n);
    }
  }

  /** A "bool" value is accepted for exactly four payloads; any other raises the
      invalid-boolean LookupError. */
  lemma GetBool(env: map<string, string>, name: string, v: string)
    requires name in env && env[name] == "bool:" + v
    ensures Get(env, name) == Ok(BoolSetting(true)) <==> v == "True" || v == "true"
    ensures Get(env, name) == Ok(BoolSetting(false)) <==> v == "False" || v == "false"
    ensures Get(env, name) == Err(InvalidBoolean(name)) <==>
      v != "True" && v != "true" && v != "False" && v != "false"
  {
    assert "bool:" + v == "bool" + ":" + v;
    SplitsAtFirstColon("bool", v);
  }

  /** A type other than str, int and bool raises the invalid-type LookupError. */
  lemma GetUnknownType(env: map<string, string>, name: string, t: string, v: string)
    requires ':' !in t && t != "str" && t != "int" && t != "bool"
    requires name in env && env[name] == t + ":" + v
    ensures Get(env, name) == Err(InvalidType(name))
  {
    SplitsAtFirstColon(t, v);
  }

  /** Only a missing variable becomes the not-defined LookupError; a value without ':'
      raises the unpacking ValueError instead. */
  lemma GetWithoutTypeTag(env: map<string, string>, name: string)
    ensures Get(env, name) == Err(NotDefined(name)) <==> name !in env
    ensures name in env && ':' !in env[name] ==> Get(env, name) == Err(NotEnoughValues)
  {
  }
}
