/**
 The tag resolution of section 10 of YAML 1.2.2: the three schemas, the
 dispatch on the first character, and the hand-written recognisers.
 */
module Schema {
  import opened Wrappers
  import opened Events

  datatype Schema = Failsafe | Json | Core

  datatype ResolvedTag = Str | Int | Float | Bool | Null | Seq | Map {
    function Uri(): string {
      match this
      case Str => "tag:yaml.org,2002:str"
      case Int => "tag:yaml.org,2002:int"
      case Float => "tag:yaml.org,2002:float"
      case Bool => "tag:yaml.org,2002:bool"
      case Null => "tag:yaml.org,2002:null"
      case Seq => "tag:yaml.org,2002:seq"
      case Map => "tag:yaml.org,2002:map"
    }
  }

  datatype CollectionKind = SequenceKind | MappingKind

  datatype Unresolved = UnresolvedScalar

  /** The character sets that the recognisers use. */
  datatype CharClass = Digit | OneToNine | Octal | Hex | Sign | ExponentMark {
    predicate Has(c: char) {
      match this
      case Digit => '0' <= c <= '9'
      case OneToNine => '1' <= c <= '9'
      case Octal => '0' <= c <= '7'
      case Hex => '0' <= c <= '9' || 'a' <= c <= 'f' || 'A' <= c <= 'F'
      case Sign => c == '-' || c == '+'
      case ExponentMark => c == 'e' || c == 'E'
    }

    predicate HasAll(s: string) {
      forall i :: 0 <= i < |s| ==> Has(s[i])
    }

    /** The number of leading characters of `s` in this set. */
    function Span(s: string): (n: nat)
      ensures n <= |s| && HasAll(s[..n])
      ensures n < |s| ==> !Has(s[n])
    {
      if s != "" && Has(s[0]) then
        assert forall i :: 0 < i < 1 + Span(s[1..]) ==> s[i] == s[1..][i - 1];
        1 + Span(s[1..])
      else 0
    }

    /** The index of the first character of `s` in this set, or `|s|`. */
    function Find(s: string): (n: nat)
      ensures n <= |s| && (n < |s| ==> Has(s[n]))
      ensures forall i :: 0 <= i < n ==> !Has(s[i])
    {
      if s == "" || Has(s[0]) then 0 else
        assert forall i :: 0 < i < 1 + Find(s[1..]) ==> s[i] == s[1..][i - 1];
        1 + Find(s[1..])
    }
  }

  // ----- Core schema -----

  predicate IsCoreNull(value: string) {
    value in {"null", "Null", "NULL", "~", ""}
  }

  predicate IsCoreBool(value: string) {
    value in {"true", "True", "TRUE", "false", "False", "FALSE"}
  }

  function StripSign(value: string): string {
    if value != "" && Sign.Has(value[0]) then value[1..] else value
  }

  predicate IsCoreInt(value: string) {
    var rest := StripSign(value);
    if rest == "" then false
    else if |rest| < |value| && ("0o" <= rest || "0x" <= rest) then false
    else if "0o" <= rest then rest[2..] != "" && Octal.HasAll(rest[2..])
    else if "0x" <= rest then rest[2..] != "" && Hex.HasAll(rest[2..])
    else if |rest| > 1 && rest[0] == '0' then false
    else Digit.HasAll(rest)
  }

  predicate IsCoreFloat(value: string) {
    if value in {".nan", ".NaN", ".NAN"} then true
    else if StripSign(value) in {".inf", ".Inf", ".INF"} then true
    else IsCoreDecimalFloat(StripSign(value))
  }

  predicate IsCoreDecimalFloat(s: string) {
    var mark := ExponentMark.Find(s);
    var mantissa := s[..mark];
    if mark < |s| && !IsValidExponent(s[mark + 1..]) then false
    else if mantissa != "" && mantissa[0] == '.' then mantissa[1..] != "" && Digit.HasAll(mantissa[1..])
    else
      var dot := FindDot(mantissa);
      if mantissa[..dot] == "" || !Digit.HasAll(mantissa[..dot]) then false
      else if dot < |mantissa| then Digit.HasAll(mantissa[dot + 1..])
      else mark < |s|
  }

  function FindDot(s: string): (n: nat)
    ensures n <= |s| && (n < |s| ==> s[n] == '.')
    ensures forall i :: 0 <= i < n ==> s[i] != '.'
  {
    if s == "" || s[0] == '.' then 0 else
      assert forall i :: 0 < i < 1 + FindDot(s[1..]) ==> s[i] == s[1..][i - 1];
      1 + FindDot(s[1..])
  }

  predicate IsValidExponent(exponent: string) {
    StripSign(exponent) != "" && Digit.HasAll(StripSign(exponent))
  }

  function ResolveCorePlain(value: string): ResolvedTag {
    if value == "" then Null
    else if value[0] == '~' then if value == "~" then Null else Str
    else if value[0] in {'n', 'N'} then if IsCoreNull(value) then Null else Str
    else if value[0] in {'t', 'T', 'f', 'F'} then if IsCoreBool(value) then Bool else Str
    else if Sign.Has(value[0]) || Digit.Has(value[0]) then
      if IsCoreInt(value) then Int else if IsCoreFloat(value) then Float else Str
    else if value[0] == '.' then if IsCoreFloat(value) then Float else Str
    else Str
  }

  // ----- JSON schema -----

  predicate IsJsonNull(value: string) {
    value == "null"
  }

  predicate IsJsonBool(value: string) {
    value in {"true", "false"}
  }

  function StripMinus(value: string): string {
    if value != "" && value[0] == '-' then value[1..] else value
  }

  predicate IsJsonInt(value: string) {
    var rest := StripMinus(value);
    value == "0" || (rest != "" && OneToNine.Has(rest[0]) && Digit.HasAll(rest[1..]))
  }

  predicate IsJsonFloat(value: string) {
    var unsigned := StripMinus(value);
    if unsigned != "" && unsigned[0] == '0' then IsJsonAfterInt(unsigned[1..])
    else if unsigned != "" && OneToNine.Has(unsigned[0]) then
      IsJsonAfterInt(unsigned[1 + Digit.Span(unsigned[1..])..])
    else false
  }

  predicate IsJsonAfterInt(afterInt: string) {
    if afterInt != "" && afterInt[0] == '.' then
      IsJsonAfterFraction(afterInt[1..][Digit.Span(afterInt[1..])..])
    else IsJsonAfterFraction(afterInt)
  }

  predicate IsJsonAfterFraction(afterFraction: string) {
    if afterFraction != "" && ExponentMark.Has(afterFraction[0]) then IsValidExponent(afterFraction[1..])
    else afterFraction == ""
  }

  function ResolveJsonPlain(value: string): Result<ResolvedTag, Unresolved> {
    if IsJsonNull(value) then Ok(Null)
    else if IsJsonBool(value) then Ok(Bool)
    else if IsJsonInt(value) then Ok(Int)
    else if IsJsonFloat(value) then Ok(Float)
    else Err(UnresolvedScalar)
  }

  // ----- Resolution -----

  function ResolveScalar(schema: Schema, style: ScalarStyle, value: string, sourceTag: Option<string>)
    : Result<Option<ResolvedTag>, Unresolved>
  {
    if sourceTag.Some? then Ok(None)
    else match schema
      case Failsafe => Ok(Some(Str))
      case Core => Ok(Some(if style.Plain? then ResolveCorePlain(value) else Str))
      case Json =>
        if style.Plain? then
          var tag :- ResolveJsonPlain(value);
          Ok(Some(tag))
        else Ok(Some(Str))
  }

  function ResolveCollection(schema: Schema, kind: CollectionKind, sourceTag: Option<string>): Option<ResolvedTag> {
    if sourceTag.Some? then None
    else Some(if kind.SequenceKind? then Seq else Map)
  }
}
