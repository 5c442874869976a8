/** The regular expressions of section 10 of YAML 1.2.2, and the recognisers that stand in for them. */
module SchemaRegex {
  import opened Wrappers
  import opened Events
  import opened Schema

  datatype Regex =
    | Lit(text: string)
    | One(chars: CharClass)
    | Many(chars: CharClass)
    | Cat(first: Regex, second: Regex)
    | Or(first: Regex, second: Regex)

  /** The language of a regular expression. */
  predicate Matches(r: Regex, s: string) {
    match r
    case Lit(text) => s == text
    case One(chars) => |s| == 1 && chars.Has(s[0])
    case Many(chars) => chars.HasAll(s)
    case Cat(first, second) => exists k | 0 <= k <= |s| :: Matches(first, s[..k]) && Matches(second, s[k..])
    case Or(first, second) => Matches(first, s) || Matches(second, s)
  }

  function Opt(r: Regex): Regex { Or(Lit(""), r) }

  function Plus(chars: CharClass): Regex { Cat(One(chars), Many(chars)) }

  // ----- The rows of the two tag resolution tables -----

  /** `null`, `Null`, `NULL`, `~` or nothing */
  const CORE_NULL := Or(Or(Lit("null"), Or(Lit("Null"), Lit("NULL"))), Or(Lit("~"), Lit("")))

  /** `true`, `True`, `TRUE`, `false`, `False` or `FALSE` */
  const CORE_BOOL :=
    Or(Or(Lit("true"), Or(Lit("True"), Lit("TRUE"))), Or(Lit("false"), Or(Lit("False"), Lit("FALSE"))))

  const JSON_NULL := Lit("null")
  const JSON_BOOL := Or(Lit("true"), Lit("false"))

  /** `[-+]?[0-9]+` */
  const DECIMAL := Cat(Opt(One(Sign)), Plus(Digit))

  /** `[-+]?0[0-9]+` */
  const LEADING_ZERO := Cat(Opt(One(Sign)), Cat(Lit("0"), Plus(Digit)))

  /** `[-+]?[0-9]+`, `0o[0-7]+` or `0x[0-9a-fA-F]+` */
  const CORE_INT := Or(DECIMAL, Or(Cat(Lit("0o"), Plus(Octal)), Cat(Lit("0x"), Plus(Hex))))

  /** `([eE][-+]?[0-9]+)?` */
  const EXPONENT := Opt(Cat(One(ExponentMark), DECIMAL))

  /** `\.[0-9]+` or `[0-9]+(\.[0-9]*)?` */
  const MANTISSA := Or(Cat(Lit("."), Plus(Digit)), Cat(Plus(Digit), FRACTION))

  /** `(\.[0-9]*)?` */
  const FRACTION := Opt(Cat(Lit("."), Many(Digit)))

  const CORE_NUMBER := Cat(Opt(One(Sign)), Cat(MANTISSA, EXPONENT))
  const CORE_INFINITY := Cat(Opt(One(Sign)), Or(Lit(".inf"), Or(Lit(".Inf"), Lit(".INF"))))
  const CORE_NAN := Or(Lit(".nan"), Or(Lit(".NaN"), Lit(".NAN")))
  const CORE_FLOAT := Or(CORE_NUMBER, Or(CORE_INFINITY, CORE_NAN))

  /** `[1-9][0-9]*` */
  const POSITIVE := Cat(One(OneToNine), Many(Digit))

  /** `0` or `-?[1-9][0-9]*` */
  const JSON_INT := Or(Lit("0"), Cat(Opt(Lit("-")), POSITIVE))

  /** `-?(0|[1-9][0-9]*)(\.[0-9]*)?([eE][-+]?[0-9]+)?` */
  const JSON_FLOAT := Cat(Opt(Lit("-")), Cat(Or(Lit("0"), POSITIVE), Cat(FRACTION, EXPONENT)))

  // ----- Matching a sequence -----

  lemma MatchesCat(first: Regex, second: Regex, s: string, k: nat)
    requires k <= |s| && Matches(first, s[..k]) && Matches(second, s[k..])
    ensures Matches(Cat(first, second), s)
  {
  }

  lemma SplitCat(first: Regex, second: Regex, s: string) returns (k: nat)
    requires Matches(Cat(first, second), s)
    ensures k <= |s| && Matches(first, s[..k]) && Matches(second, s[k..])
  {
    k :| 0 <= k <= |s| && Matches(first, s[..k]) && Matches(second, s[k..]);
  }

  lemma MatchesPlus(chars: CharClass, s: string)
    ensures Matches(Plus(chars), s) <==> s != "" && chars.HasAll(s)
  {
    if s != "" && chars.HasAll(s) {
      MatchesCat(One(chars), Many(chars), s, 1);
    }
    if Matches(Plus(chars), s) {
      var k := SplitCat(One(chars), Many(chars), s);
      assert forall i :: 0 < i < |s| ==> s[i] == s[k..][i - 1];
    }
  }

  /** An optional literal or character in front of something that cannot start with it. */
  lemma MatchesSigned(r: Regex, s: string)
    requires forall t: string :: t != "" && Sign.Has(t[0]) ==> !Matches(r, t)
    ensures Matches(Cat(Opt(One(Sign)), r), s) <==> Matches(r, StripSign(s))
  {
    if Matches(r, StripSign(s)) {
      var k := |s| - |StripSign(s)|;
      assert s[k..] == StripSign(s);
      MatchesCat(Opt(One(Sign)), r, s, k);
    }
    if Matches(Cat(Opt(One(Sign)), r), s) {
      var k := SplitCat(Opt(One(Sign)), r, s);
      assert Matches(Lit(""), s[..k]) || Matches(One(Sign), s[..k]);
      if k == 0 {
        assert s[k..] == s;
      } else {
        assert s[..k][0] == s[0];
      }
    }
  }

  lemma MatchesNegated(r: Regex, s: string)
    requires forall t: string :: t != "" && t[0] == '-' ==> !Matches(r, t)
    ensures Matches(Cat(Opt(Lit("-")), r), s) <==> Matches(r, StripMinus(s))
  {
    if Matches(r, StripMinus(s)) {
      var k := |s| - |StripMinus(s)|;
      assert s[k..] == StripMinus(s);
      MatchesCat(Opt(Lit("-")), r, s, k);
    }
    if Matches(Cat(Opt(Lit("-")), r), s) {
      var k := SplitCat(Opt(Lit("-")), r, s);
      assert Matches(Lit(""), s[..k]) || Matches(Lit("-"), s[..k]);
      if k == 0 {
        assert s[k..] == s;
      } else {
        assert s[0] == s[..k][0];
      }
    }
  }

  // ----- Integers -----

  lemma PlusHasNoSign(chars: CharClass)
    requires chars.Digit? || chars.Octal? || chars.Hex?
    ensures forall t: string :: t != "" && Sign.Has(t[0]) ==> !Matches(Plus(chars), t)
  {
    forall t: string | t != "" && Sign.Has(t[0])
      ensures !Matches(Plus(chars), t)
    {
      MatchesPlus(chars, t);
    }
  }

  lemma MatchesDecimal(s: string)
    ensures Matches(DECIMAL, s) <==> StripSign(s) != "" && Digit.HasAll(StripSign(s))
  {
    PlusHasNoSign(Digit);
    MatchesSigned(Plus(Digit), s);
    MatchesPlus(Digit, StripSign(s));
  }

  lemma MatchesPrefixed(prefix: string, r: Regex, s: string)
    ensures Matches(Cat(Lit(prefix), r), s) <==> prefix <= s && Matches(r, s[|prefix|..])
  {
    if prefix <= s && Matches(r, s[|prefix|..]) {
      MatchesCat(Lit(prefix), r, s, |prefix|);
    }
    if Matches(Cat(Lit(prefix), r), s) {
      var k := SplitCat(Lit(prefix), r, s);
    }
  }

  lemma MatchesLeadingZero(s: string)
    ensures Matches(LEADING_ZERO, s) <==>
            var rest := StripSign(s); |rest| > 1 && rest[0] == '0' && Digit.HasAll(rest)
  {
    var zero := Cat(Lit("0"), Plus(Digit));
    forall t: string | t != "" && Sign.Has(t[0])
      ensures !Matches(zero, t)
    {
      MatchesPrefixed("0", Plus(Digit), t);
    }
    MatchesSigned(zero, s);
    var rest := StripSign(s);
    MatchesPrefixed("0", Plus(Digit), rest);
    if rest != "" {
      MatchesPlus(Digit, rest[1..]);
      HasAllTail(Digit, rest);
    }
  }

  lemma HasAllTail(chars: CharClass, s: string)
    requires s != ""
    ensures chars.HasAll(s) <==> chars.Has(s[0]) && chars.HasAll(s[1..])
  {
    if chars.Has(s[0]) && chars.HasAll(s[1..]) {
      assert forall i :: 0 < i < |s| ==> s[i] == s[1..][i - 1];
    }
  }

  /** The Core integer recogniser accepts the table row, but for decimals with a leading zero. */
  lemma CoreIntIsRegular(value: string)
    ensures IsCoreInt(value) <==> Matches(CORE_INT, value) && !Matches(LEADING_ZERO, value)
  {
    MatchesDecimal(value);
    MatchesLeadingZero(value);
    MatchesPrefixed("0o", Plus(Octal), value);
    MatchesPrefixed("0x", Plus(Hex), value);
    if |value| >= 2 {
      MatchesPlus(Octal, value[2..]);
      MatchesPlus(Hex, value[2..]);
    }
    hide Matches;
    var rest := StripSign(value);
    if |rest| < |value| {
      assert !("0o" <= value) && !("0x" <= value);
    } else {
      assert rest == value;
    }
    if "0o" <= rest || "0x" <= rest {
      assert !Digit.HasAll(rest) by { assert !Digit.Has(rest[1]); }
    }
  }

  /** The JSON integer recogniser accepts exactly the table row. */
  lemma JsonIntIsRegular(value: string)
    ensures IsJsonInt(value) <==> Matches(JSON_INT, value)
  {
    forall t: string | t != "" && t[0] == '-'
      ensures !Matches(POSITIVE, t)
    {
      MatchesPositive(t);
    }
    MatchesNegated(POSITIVE, value);
    MatchesPositive(StripMinus(value));
  }

  lemma MatchesPositive(s: string)
    ensures Matches(POSITIVE, s) <==> s != "" && OneToNine.Has(s[0]) && Digit.HasAll(s[1..])
  {
    if s != "" && OneToNine.Has(s[0]) && Digit.HasAll(s[1..]) {
      MatchesCat(One(OneToNine), Many(Digit), s, 1);
    }
    if Matches(POSITIVE, s) {
      var k := SplitCat(One(OneToNine), Many(Digit), s);
    }
  }

  // ----- Floats -----

  lemma MatchesExponent(s: string)
    ensures Matches(EXPONENT, s) <==> s == "" || (ExponentMark.Has(s[0]) && IsValidExponent(s[1..]))
  {
    if s != "" {
      MatchesDecimal(s[1..]);
      if ExponentMark.Has(s[0]) && IsValidExponent(s[1..]) {
        MatchesCat(One(ExponentMark), DECIMAL, s, 1);
      }
    }
    if Matches(Cat(One(ExponentMark), DECIMAL), s) {
      var k := SplitCat(One(ExponentMark), DECIMAL, s);
      assert s[..k][0] == s[0];
    }
  }

  lemma MatchesFraction(s: string)
    ensures Matches(FRACTION, s) <==> s == "" || (s[0] == '.' && Digit.HasAll(s[1..]))
  {
    MatchesPrefixed(".", Many(Digit), s);
  }

  /** What comes before and behind the first character that is not in the set is determined. */
  lemma SpanIsMaximal(chars: CharClass, s: string, k: nat)
    requires k <= |s| && chars.HasAll(s[..k]) && (k < |s| ==> !chars.Has(s[k]))
    ensures chars.Span(s) == k
  {
    var n := chars.Span(s);
    assert n <= |s| && chars.HasAll(s[..n]);
    assert forall i :: 0 <= i < n ==> s[..n][i] == s[i];
    assert forall i :: 0 <= i < k ==> s[..k][i] == s[i];
  }

  lemma FindIsFirst(chars: CharClass, s: string, k: nat)
    requires k <= |s| && (forall i :: 0 <= i < k ==> !chars.Has(s[i])) && (k < |s| ==> chars.Has(s[k]))
    ensures chars.Find(s) == k
  {
  }

  lemma FindDotIsFirst(s: string, k: nat)
    requires k <= |s| && (forall i :: 0 <= i < k ==> s[i] != '.') && (k < |s| ==> s[k] == '.')
    ensures FindDot(s) == k
  {
  }

  /** A mantissa: digits with at most one dot among them, and a digit unless behind the dot. */
  predicate IsMantissa(s: string) {
    var dot := FindDot(s);
    if dot == 0 then s != "" && s[1..] != "" && Digit.HasAll(s[1..])
    else Digit.HasAll(s[..dot]) && (dot < |s| ==> Digit.HasAll(s[dot + 1..]))
  }

  lemma MatchesMantissa(s: string)
    ensures Matches(MANTISSA, s) <==> IsMantissa(s)
  {
    MatchesPrefixed(".", Plus(Digit), s);
    if s != "" {
      MatchesPlus(Digit, s[1..]);
    }
    var dot := FindDot(s);
    if dot > 0 && IsMantissa(s) {
      MatchesPlus(Digit, s[..dot]);
      MatchesFraction(s[dot..]);
      if dot < |s| {
        assert s[dot..][1..] == s[dot + 1..];
      }
      MatchesCat(Plus(Digit), FRACTION, s, dot);
    }
    if Matches(Cat(Plus(Digit), FRACTION), s) {
      var k := SplitCat(Plus(Digit), FRACTION, s);
      MatchesPlus(Digit, s[..k]);
      MatchesFraction(s[k..]);
      forall i | 0 <= i < k
        ensures s[i] != '.'
      {
        assert s[..k][i] == s[i];
      }
      if k < |s| {
        assert s[k..][0] == s[k];
        assert s[k..][1..] == s[k + 1..];
      }
      FindDotIsFirst(s, k);
    }
  }

  lemma MantissaHasNoMark(s: string)
    requires IsMantissa(s)
    ensures forall i :: 0 <= i < |s| ==> !ExponentMark.Has(s[i]) && !Sign.Has(s[i])
  {
    var dot := FindDot(s);
    forall i | 0 <= i < |s|
      ensures !ExponentMark.Has(s[i]) && !Sign.Has(s[i])
    {
      if i < dot {
        assert s[..dot][i] == s[i];
      } else if i > dot {
        assert s[dot + 1..][i - dot - 1] == s[i];
      }
    }
  }

  /** The unsigned number row: a mantissa up to the first exponent mark, then a valid exponent. */
  predicate IsNumber(s: string) {
    var mark := ExponentMark.Find(s);
    IsMantissa(s[..mark]) && (mark < |s| ==> IsValidExponent(s[mark + 1..]))
  }

  lemma NumberMatches(s: string)
    requires IsNumber(s)
    ensures Matches(Cat(MANTISSA, EXPONENT), s)
  {
    hide IsMantissa;
    var mark := ExponentMark.Find(s);
    MatchesMantissa(s[..mark]);
    MatchesExponent(s[mark..]);
    if mark < |s| {
      assert s[mark..][1..] == s[mark + 1..];
    }
    hide Matches;
    MatchesCat(MANTISSA, EXPONENT, s, mark);
  }

  lemma MatchIsNumber(s: string)
    requires Matches(Cat(MANTISSA, EXPONENT), s)
    ensures IsNumber(s)
  {
    hide IsMantissa;
    var k := SplitCat(MANTISSA, EXPONENT, s);
    MatchesMantissa(s[..k]);
    MatchesExponent(s[k..]);
    hide Matches;
    MantissaHasNoMark(s[..k]);
    assert forall i :: 0 <= i < k ==> s[..k][i] == s[i];
    if k < |s| {
      assert s[k..][1..] == s[k + 1..];
      assert s[k..][0] == s[k];
    }
    FindIsFirst(ExponentMark, s, k);
  }

  lemma MatchesNumber(s: string)
    ensures Matches(Cat(MANTISSA, EXPONENT), s) <==> IsNumber(s)
  {
    if IsNumber(s) {
      NumberMatches(s);
    }
    hide IsNumber;
    if Matches(Cat(MANTISSA, EXPONENT), s) {
      MatchIsNumber(s);
    }
  }

  /** The recogniser for unsigned decimals accepts the row but for bare digits. */
  lemma DecimalFloatIsNumber(s: string)
    ensures IsCoreDecimalFloat(s) <==> Matches(Cat(MANTISSA, EXPONENT), s) && !(s != "" && Digit.HasAll(s))
  {
    MatchesNumber(s);
    hide Matches;
    var mark := ExponentMark.Find(s);
    var mantissa := s[..mark];
    var dot := FindDot(mantissa);
    if s != "" && Digit.HasAll(s) {
      FindIsFirst(ExponentMark, s, |s|);
      FindDotIsFirst(s, |s|);
      assert mantissa == s;
    } else if mark == |s| {
      assert mantissa == s;
      if dot == |s| {
        assert mantissa[..dot] == s;
      }
    }
  }

  lemma NumberHasNoSign(t: string)
    requires t != "" && Sign.Has(t[0])
    ensures !Matches(Cat(MANTISSA, EXPONENT), t)
  {
    MatchesNumber(t);
    var mark := ExponentMark.Find(t);
    if IsMantissa(t[..mark]) {
      MantissaHasNoMark(t[..mark]);
    }
  }

  lemma MatchesAny(a: string, b: string, c: string, s: string)
    ensures Matches(Or(Lit(a), Or(Lit(b), Lit(c))), s) <==> s in {a, b, c}
  {
    assert Matches(Or(Lit(b), Lit(c)), s) <==> s == b || s == c;
  }

  lemma MatchesInfinity(value: string)
    ensures Matches(CORE_INFINITY, value) <==> StripSign(value) in {".inf", ".Inf", ".INF"}
  {
    var infinities := Or(Lit(".inf"), Or(Lit(".Inf"), Lit(".INF")));
    forall t: string
      ensures Matches(infinities, t) <==> t in {".inf", ".Inf", ".INF"}
    {
      MatchesAny(".inf", ".Inf", ".INF", t);
    }
    MatchesSigned(infinities, value);
  }

  lemma MatchesCoreNumber(value: string)
    ensures Matches(CORE_NUMBER, value) <==> Matches(Cat(MANTISSA, EXPONENT), StripSign(value))
  {
    forall t: string | t != "" && Sign.Has(t[0])
      ensures !Matches(Cat(MANTISSA, EXPONENT), t)
    {
      NumberHasNoSign(t);
    }
    MatchesSigned(Cat(MANTISSA, EXPONENT), value);
  }

  /**
   The Core float recogniser accepts the table row, but for numbers with
   neither dot nor exponent, which the integer row has.
   */
  lemma CoreFloatIsRegular(value: string)
    ensures IsCoreFloat(value) <==> Matches(CORE_FLOAT, value) && !Matches(DECIMAL, value)
  {
    MatchesCoreNumber(value);
    MatchesInfinity(value);
    MatchesAny(".nan", ".NaN", ".NAN", value);
    MatchesDecimal(value);
    var rest := StripSign(value);
    DecimalFloatIsNumber(rest);
    assert Matches(Or(CORE_INFINITY, CORE_NAN), value) <==> Matches(CORE_INFINITY, value) || Matches(CORE_NAN, value);
    hide IsCoreDecimalFloat;
    hide Matches;
    SpecialIsNoDecimal(value);
    hide StripSign;
  }

  lemma SpecialIsNoDecimal(value: string)
    ensures StripSign(value) in {".inf", ".Inf", ".INF"} || value in {".nan", ".NaN", ".NAN"} ==>
              !Digit.HasAll(StripSign(value))
  {
    var rest := StripSign(value);
    if rest in {".inf", ".Inf", ".INF"} || value in {".nan", ".NaN", ".NAN"} {
      assert !Digit.Has(rest[0]);
    }
  }

  // ----- JSON floats -----

  lemma MatchesTail(s: string)
    ensures Matches(Cat(FRACTION, EXPONENT), s) <==> IsJsonAfterInt(s)
  {
    if IsJsonAfterInt(s) {
      TailMatches(s);
    }
    if Matches(Cat(FRACTION, EXPONENT), s) {
      var k := SplitCat(FRACTION, EXPONENT, s);
      MatchesFraction(s[..k]);
      MatchesExponent(s[k..]);
      hide Matches;
      MatchIsTail(s, k);
    }
  }

  lemma TailMatches(s: string)
    requires IsJsonAfterInt(s)
    ensures Matches(Cat(FRACTION, EXPONENT), s)
  {
    var k := if s != "" && s[0] == '.' then 1 + Digit.Span(s[1..]) else 0;
    MatchesFraction(s[..k]);
    MatchesExponent(s[k..]);
    if k > 0 {
      assert s[..k][1..] == s[1..][..k - 1];
      assert s[k..] == s[1..][k - 1..];
    } else {
      assert s[k..] == s;
    }
    MatchesCat(FRACTION, EXPONENT, s, k);
  }

  lemma MatchIsTail(s: string, k: nat)
    requires k <= |s|
    requires s[..k] == "" || (s[..k][0] == '.' && Digit.HasAll(s[..k][1..]))
    requires s[k..] == "" || (ExponentMark.Has(s[k..][0]) && IsValidExponent(s[k..][1..]))
    ensures IsJsonAfterInt(s)
  {
    if k == 0 {
      assert s[k..] == s;
    } else {
      assert s[..k][0] == s[0];
      assert s[..k][1..] == s[1..][..k - 1];
      assert s[k..] == s[1..][k - 1..];
      if k < |s| {
        assert s[k..][0] == s[1..][k - 1];
      }
      SpanIsMaximal(Digit, s[1..], k - 1);
    }
  }

  /** `0`, or a positive number as far as its digits go, then the tail. */
  lemma MatchesUnsigned(s: string)
    ensures Matches(Cat(Or(Lit("0"), POSITIVE), Cat(FRACTION, EXPONENT)), s) <==>
            if s != "" && s[0] == '0' then IsJsonAfterInt(s[1..])
            else s != "" && OneToNine.Has(s[0]) && IsJsonAfterInt(s[1 + Digit.Span(s[1..])..])
  {
    var tail := Cat(FRACTION, EXPONENT);
    if s != "" && (s[0] == '0' || OneToNine.Has(s[0])) {
      var k := if s[0] == '0' then 1 else 1 + Digit.Span(s[1..]);
      IntegerMatches(s, k);
      MatchesTail(s[k..]);
      if IsJsonAfterInt(s[k..]) {
        MatchesCat(Or(Lit("0"), POSITIVE), tail, s, k);
      }
    }
    if Matches(Cat(Or(Lit("0"), POSITIVE), tail), s) {
      var k := SplitCat(Or(Lit("0"), POSITIVE), tail, s);
      assert Matches(Lit("0"), s[..k]) || Matches(POSITIVE, s[..k]);
      MatchesPositive(s[..k]);
      MatchesTail(s[k..]);
      hide Matches;
      IntegerIsMaximal(s, k);
    }
  }

  lemma IntegerMatches(s: string, k: nat)
    requires s != "" && (s[0] == '0' || OneToNine.Has(s[0]))
    requires k == if s[0] == '0' then 1 else 1 + Digit.Span(s[1..])
    ensures Matches(Or(Lit("0"), POSITIVE), s[..k])
  {
    MatchesPositive(s[..k]);
    if s[0] == '0' {
      assert s[..k] == "0";
    } else {
      assert s[..k][1..] == s[1..][..k - 1];
    }
  }

  lemma IntegerIsMaximal(s: string, k: nat)
    requires k <= |s| && IsJsonAfterInt(s[k..])
    requires s[..k] == "0" || (s[..k] != "" && OneToNine.Has(s[..k][0]) && Digit.HasAll(s[..k][1..]))
    ensures s != "" && k > 0 && s[..k][0] == s[0]
    ensures s[0] == '0' ==> k == 1
    ensures s[0] != '0' ==> k == 1 + Digit.Span(s[1..])
  {
    assert s[..k][0] == s[0];
    if s[0] != '0' {
      assert s[..k][1..] == s[1..][..k - 1];
      if k < |s| {
        assert s[k..][0] == s[k] == s[1..][k - 1];
      }
      SpanIsMaximal(Digit, s[1..], k - 1);
    }
  }

  /** The JSON float recogniser accepts exactly the table row. */
  lemma JsonFloatIsRegular(value: string)
    ensures IsJsonFloat(value) <==> Matches(JSON_FLOAT, value)
  {
    var unsigned := Cat(Or(Lit("0"), POSITIVE), Cat(FRACTION, EXPONENT));
    forall t: string
      ensures Matches(unsigned, t) <==>
              if t != "" && t[0] == '0' then IsJsonAfterInt(t[1..])
              else t != "" && OneToNine.Has(t[0]) && IsJsonAfterInt(t[1 + Digit.Span(t[1..])..])
    {
      MatchesUnsigned(t);
    }
    hide IsJsonAfterInt;
    MatchesNegated(unsigned, value);
  }

  // ----- The two dispatchers -----

  /** Trying the rows one after the other. */
  function ResolveInOrder(value: string): ResolvedTag {
    if IsCoreNull(value) then Null
    else if IsCoreBool(value) then Bool
    else if IsCoreInt(value) then Int
    else if IsCoreFloat(value) then Float
    else Str
  }

  /** Looking at the first character first changes no answer. */
  lemma DispatchIsInOrder(value: string)
    ensures ResolveCorePlain(value) == ResolveInOrder(value)
  {
    if value != "" {
      CoreNumberStart(value);
      hide IsCoreInt;
      hide IsCoreFloat;
      assert IsCoreNull(value) ==> value[0] in {'n', 'N', '~'};
      assert IsCoreBool(value) ==> value[0] in {'t', 'T', 'f', 'F'};
    }
  }

  lemma CoreNumberStart(value: string)
    requires value != ""
    ensures IsCoreInt(value) ==> Sign.Has(value[0]) || Digit.Has(value[0])
    ensures IsCoreFloat(value) ==> Sign.Has(value[0]) || Digit.Has(value[0]) || value[0] == '.'
  {
    if IsCoreFloat(value) && !Sign.Has(value[0]) {
      var mark := ExponentMark.Find(value);
      var mantissa := value[..mark];
      if mantissa != "" {
        assert mantissa[0] == value[0];
        var dot := FindDot(mantissa);
        if dot > 0 {
          assert mantissa[..dot][0] == value[0];
        }
      }
    }
  }

  // ----- Tags by the tables -----

  /** The table of section 10.3.2, read from the top; a decimal with a leading zero is no number here. */
  function CoreRow(value: string): string {
    if Matches(CORE_NULL, value) then "tag:yaml.org,2002:null"
    else if Matches(CORE_BOOL, value) then "tag:yaml.org,2002:bool"
    else if Matches(LEADING_ZERO, value) then "tag:yaml.org,2002:str"
    else if Matches(CORE_INT, value) then "tag:yaml.org,2002:int"
    else if Matches(CORE_FLOAT, value) then "tag:yaml.org,2002:float"
    else "tag:yaml.org,2002:str"
  }

  /** The table of section 10.2.2, read from the top; it has no last row. */
  function JsonRow(value: string): Option<string> {
    if Matches(JSON_NULL, value) then Some("tag:yaml.org,2002:null")
    else if Matches(JSON_BOOL, value) then Some("tag:yaml.org,2002:bool")
    else if Matches(JSON_INT, value) then Some("tag:yaml.org,2002:int")
    else if Matches(JSON_FLOAT, value) then Some("tag:yaml.org,2002:float")
    else None
  }

  /** The tag that a scalar without a tag gets; none if it has no place in its schema. */
  function TableTag(schema: Schema, style: ScalarStyle, value: string): Option<string> {
    if schema.Failsafe? || !style.Plain? then Some("tag:yaml.org,2002:str")
    else if schema.Core? then Some(CoreRow(value))
    else JsonRow(value)
  }

  lemma MatchesWords(value: string)
    ensures Matches(CORE_NULL, value) <==> IsCoreNull(value)
    ensures Matches(CORE_BOOL, value) <==> IsCoreBool(value)
    ensures Matches(JSON_NULL, value) <==> IsJsonNull(value)
    ensures Matches(JSON_BOOL, value) <==> IsJsonBool(value)
  {
    MatchesAny("null", "Null", "NULL", value);
    MatchesAny("true", "True", "TRUE", value);
    MatchesAny("false", "False", "FALSE", value);
    assert Matches(Or(Lit("~"), Lit("")), value) <==> value in {"~", ""};
  }

  lemma LeadingZeroIsDecimal(value: string)
    ensures Matches(LEADING_ZERO, value) ==> Matches(DECIMAL, value)
    ensures Matches(DECIMAL, value) && !Matches(LEADING_ZERO, value) ==> IsCoreInt(value)
  {
    MatchesLeadingZero(value);
    MatchesDecimal(value);
    CoreIntIsRegular(value);
  }

  lemma CoreIsTheTable(value: string)
    ensures ResolveCorePlain(value).Uri() == CoreRow(value)
  {
    DispatchIsInOrder(value);
    MatchesWords(value);
    CoreIntIsRegular(value);
    CoreFloatIsRegular(value);
    LeadingZeroIsDecimal(value);
    hide ResolveCorePlain;
    hide Matches;
    hide IsCoreNull;
    hide IsCoreBool;
    hide IsCoreInt;
    hide IsCoreFloat;
  }

  lemma JsonIsTheTable(value: string)
    ensures ResolveJsonPlain(value).Ok? <==> JsonRow(value).Some?
    ensures ResolveJsonPlain(value).Ok? ==> ResolveJsonPlain(value).value.Uri() == JsonRow(value).value
  {
    MatchesWords(value);
    JsonIntIsRegular(value);
    JsonFloatIsRegular(value);
    hide Matches;
    hide IsJsonNull;
    hide IsJsonBool;
    hide IsJsonInt;
    hide IsJsonFloat;
  }

  /** A scalar without a tag gets that of the tables, and has none where they give none. */
  lemma ResolvesByTheTables(schema: Schema, style: ScalarStyle, value: string)
    ensures var r := ResolveScalar(schema, style, value, None);
            && (r.Ok? <==> TableTag(schema, style, value).Some?)
            && (r.Ok? ==> r.value.Some? && r.value.value.Uri() == TableTag(schema, style, value).value)
  {
    hide ResolveCorePlain;
    hide ResolveJsonPlain;
    hide CoreRow;
    hide JsonRow;
    CoreIsTheTable(value);
    JsonIsTheTable(value);
  }

  // ----- JSON against Core -----

  /** An unsigned JSON float is an unsigned Core number. */
  lemma JsonNumberIsNumber(s: string)
    requires Matches(Cat(Or(Lit("0"), POSITIVE), Cat(FRACTION, EXPONENT)), s)
    ensures Matches(Cat(MANTISSA, EXPONENT), s)
  {
    var k := SplitCat(Or(Lit("0"), POSITIVE), Cat(FRACTION, EXPONENT), s);
    var j := SplitCat(FRACTION, EXPONENT, s[k..]);
    IntegerIsDigits(s[..k]);
    MatchesPlus(Digit, s[..k]);
    hide Matches;
    MantissaInFront(s, k, j);
    assert s[k + j..] == s[k..][j..];
    MatchesCat(MANTISSA, EXPONENT, s, k + j);
  }

  lemma MantissaInFront(s: string, k: nat, j: nat)
    requires k + j <= |s| && Matches(Plus(Digit), s[..k]) && Matches(FRACTION, s[k..][..j])
    ensures Matches(MANTISSA, s[..k + j])
  {
    assert s[..k + j][..k] == s[..k] && s[..k + j][k..] == s[k..][..j];
    MatchesCat(Plus(Digit), FRACTION, s[..k + j], k);
  }

  lemma IntegerIsDigits(s: string)
    requires Matches(Or(Lit("0"), POSITIVE), s)
    ensures s != "" && Digit.HasAll(s)
  {
    if s != "0" {
      MatchesPositive(s);
      HasAllTail(Digit, s);
    }
  }

  lemma JsonFloatIsNumber(value: string)
    requires IsJsonFloat(value)
    ensures StripMinus(value) == StripSign(value) != ""
    ensures Matches(Cat(MANTISSA, EXPONENT), StripSign(value))
  {
    MatchesUnsigned(StripMinus(value));
    JsonNumberIsNumber(StripMinus(value));
  }

  lemma JsonIntIsCoreInt(value: string)
    requires IsJsonInt(value)
    ensures IsCoreInt(value)
  {
    if value != "0" {
      HasAllTail(Digit, StripMinus(value));
      assert !Digit.Has('o') && !Digit.Has('x');
    }
  }

  /** The only JSON float that is a Core integer. */
  lemma JsonFloatThatIsCoreInt(value: string)
    requires IsJsonFloat(value) && !IsJsonInt(value)
    ensures IsCoreInt(value) <==> value == "-0"
    ensures !IsCoreInt(value) ==> IsCoreFloat(value)
  {
    var rest := StripMinus(value);
    JsonFloatIsNumber(value);
    DecimalFloatIsNumber(rest);
    hide Matches;
    hide IsCoreDecimalFloat;
    if Digit.HasAll(rest) {
      HasAllTail(Digit, rest);
      DigitsOnly(value);
    } else {
      NotPrefixed(value);
    }
  }

  /** A JSON float of digits alone that is not a JSON integer is minus zero. */
  lemma DigitsOnly(value: string)
    requires IsJsonFloat(value) && !IsJsonInt(value) && Digit.HasAll(StripMinus(value))
    ensures value == "-0" && IsCoreInt(value)
  {
    var rest := StripMinus(value);
    if rest[0] != '0' {
      HasAllTail(Digit, rest);
    } else if |rest| == 1 {
      assert rest == "0";
    }
  }

  lemma NotPrefixed(value: string)
    requires IsJsonFloat(value) && !Digit.HasAll(StripMinus(value))
    ensures !IsCoreInt(value)
  {
    var rest := StripMinus(value);
    if |rest| >= 2 && rest[0] == '0' {
      assert rest[1..][0] == rest[1];
    }
  }

  /** Whatever JSON resolves, Core resolves the same way, but for `-0`. */
  lemma JsonAgreesWithCore(value: string)
    requires ResolveJsonPlain(value).Ok?
    ensures ResolveCorePlain(value) == ResolveJsonPlain(value).value <==> value != "-0"
    ensures value == "-0" ==> ResolveJsonPlain(value).value.Float? && ResolveCorePlain(value).Int?
  {
    DispatchIsInOrder(value);
    hide ResolveCorePlain;
    if IsJsonInt(value) {
      JsonIntIsCoreInt(value);
      assert !IsJsonInt("-0");
    } else if IsJsonFloat(value) {
      JsonFloatThatIsCoreInt(value);
      hide IsCoreInt;
      hide IsCoreFloat;
      assert !IsCoreNull(value) && !IsCoreBool(value);
    }
  }
}
