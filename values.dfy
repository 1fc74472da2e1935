/**
 * Option values and their text form: whitespace trimming, the four option
 * kinds and the parsers that turn the text of a `key=value` segment into a
 * value of the requested kind.
 */
module Values {
  import opened Types

  /** Errors of the configuration layer. */
  datatype ConfigureError =
    | UnknownOrBadType(key: string)
    | AmbiguousKey(key: string)
    | ConversionFailure(key: string)
    | CannotAccessOptionValue(key: string)

  /** Everything the configuration layer can fail with, as one type. */
  datatype Error =
    | Configure(ce: ConfigureError)
    | Sampler(se: SamplerError)
    | ParseIntError(text: string)
    | ParseFloatError(text: string)
    | UnknownSlot(name: string)
    | CannotConfigureStatic(name: string)
    | ConfigureFailed(name: string, cause: Error)

  datatype OptionType = UIntType | FloatType | BoolType | StringType

  /** A 64-bit float as far as option text can produce one. */
  datatype FloatValue = Finite(r: real) | PosInf | NegInf

  datatype OptionValue =
    | UInt(n: nat)
    | Float(f: FloatValue)
    | Bool(b: bool)
    | Str(s: string)

  function TypeOf(v: OptionValue): OptionType
  {
    match v
    case UInt(_) => UIntType
    case Float(_) => FloatType
    case Bool(_) => BoolType
    case Str(_) => StringType
  }

  // ---------------------------------------------------------------------
  // Trimming
  // ---------------------------------------------------------------------

  /** The Unicode White_Space characters. */
  predicate IsWhitespace(c: char)
  {
    ('\t' <= c <= '\r') || c == ' ' || c == '\U{0085}' || c == '\U{00A0}' || c == '\U{1680}'
    || ('\U{2000}' <= c <= '\U{200A}') || c == '\U{2028}' || c == '\U{2029}'
    || c == '\U{202F}' || c == '\U{205F}' || c == '\U{3000}'
  }

  predicate AllWhitespace(s: string)
  {
    forall i :: 0 <= i < |s| ==> IsWhitespace(s[i])
  }

  /** Neither end of `s` is whitespace. */
  predicate Tight(s: string)
  {
    s == [] || (!IsWhitespace(s[0]) && !IsWhitespace(s[|s| - 1]))
  }

  /** `s` without its leading whitespace: a suffix of `s`. */
  function TrimStart(s: string): (r: string)
    ensures |r| <= |s|
  {
    if s != [] && IsWhitespace(s[0]) then TrimStart(s[1..]) else s
  }

  /** What `TrimStart` removes is whitespace, and what it keeps does not start with whitespace. */
  lemma {:induction false} TrimStartSpec(s: string)
    ensures var r := TrimStart(s);
      r == s[|s| - |r|..] && AllWhitespace(s[..|s| - |r|]) && (r == [] || !IsWhitespace(r[0]))
  {
    if s != [] && IsWhitespace(s[0]) {
      TrimStartSpec(s[1..]);
      var r := TrimStart(s);
      assert r == TrimStart(s[1..]);
      assert s[1..][|s| - 1 - |r|..] == s[|s| - |r|..];
      forall i | 0 <= i < |s| - |r|
        ensures IsWhitespace(s[i])
      {
        if i > 0 {
          assert s[i] == s[1..][..|s| - 1 - |r|][i - 1];
        }
      }
    }
  }

  /** `s` without its trailing whitespace: a prefix of `s`. */
  function TrimEnd(s: string): (r: string)
    ensures |r| <= |s|
  {
    if s != [] && IsWhitespace(s[|s| - 1]) then TrimEnd(s[..|s| - 1]) else s
  }

  /** What `TrimEnd` removes is whitespace, and what it keeps does not end with whitespace. */
  lemma {:induction false} TrimEndSpec(s: string)
    ensures var r := TrimEnd(s);
      r == s[..|r|] && AllWhitespace(s[|r|..]) && (r == [] || !IsWhitespace(r[|r| - 1]))
  {
    if s != [] && IsWhitespace(s[|s| - 1]) {
      TrimEndSpec(s[..|s| - 1]);
      var r := TrimEnd(s);
      assert r == TrimEnd(s[..|s| - 1]);
      assert s[..|s| - 1][..|r|] == s[..|r|];
      forall i | |r| <= i < |s|
        ensures IsWhitespace(s[i])
      {
        if i < |s| - 1 {
          assert s[i] == s[..|s| - 1][|r|..][i - |r|];
        }
      }
    }
  }

  /** `s` without leading and trailing whitespace. */
  function Trim(s: string): (r: string)
    ensures Tight(r)
    ensures |r| <= |s|
  {
    TrimStartSpec(s);
    TrimEndSpec(TrimStart(s));
    TrimEnd(TrimStart(s))
  }

  lemma {:induction false} TrimStartPadded(ws: string, t: string)
    requires AllWhitespace(ws)
    requires t == [] || !IsWhitespace(t[0])
    ensures TrimStart(ws + t) == t
    decreases |ws|
  {
    if ws == [] {
      assert ws + t == t;
      if t != [] {
        assert !IsWhitespace((ws + t)[0]);
      }
    } else {
      assert (ws + t)[1..] == ws[1..] + t;
      TrimStartPadded(ws[1..], t);
    }
  }

  lemma {:induction false} TrimEndPadded(t: string, ws: string)
    requires AllWhitespace(ws)
    requires t == [] || !IsWhitespace(t[|t| - 1])
    ensures TrimEnd(t + ws) == t
    decreases |ws|
  {
    if ws == [] {
      assert t + ws == t;
    } else {
      assert (t + ws)[..|t + ws| - 1] == t + ws[..|ws| - 1];
      TrimEndPadded(t, ws[..|ws| - 1]);
    }
  }

  /**
   * Trimming removes exactly the padding: a tight string surrounded by any
   * whitespace trims to itself.
   */
  lemma TrimPadded(ws1: string, t: string, ws2: string)
    requires AllWhitespace(ws1) && AllWhitespace(ws2) && Tight(t)
    ensures Trim(ws1 + t + ws2) == t
  {
    if t == [] {
      assert ws1 + t + ws2 == ws1 + ws2;
      assert AllWhitespace(ws1 + ws2);
      TrimStartPadded(ws1 + ws2, []);
      assert ws1 + ws2 + [] == ws1 + ws2;
    } else {
      assert ws1 + t + ws2 == ws1 + (t + ws2);
      assert (t + ws2)[0] == t[0];
      TrimStartPadded(ws1, t + ws2);
      TrimEndPadded(t, ws2);
    }
  }

  /** Tight text trims to itself. */
  lemma TightTrim(t: string)
    requires Tight(t)
    ensures Trim(t) == t
  {
    TrimPadded([], t, []);
    assert [] + t + [] == t;
  }

  /** Trimming is idempotent. */
  lemma TrimIdempotent(s: string)
    ensures Trim(Trim(s)) == Trim(s)
  {
    TightTrim(Trim(s));
  }

  // ---------------------------------------------------------------------
  // Unsigned integers
  // ---------------------------------------------------------------------

  const U64_MAX: nat := 0xFFFF_FFFF_FFFF_FFFF

  predicate IsDigit(c: char)
  {
    '0' <= c <= '9'
  }

  predicate AllDigits(d: string)
  {
    forall i :: 0 <= i < |d| ==> IsDigit(d[i])
  }

  function DigitValue(c: char): nat
    requires IsDigit(c)
  {
    (c as int - '0' as int) as nat
  }

  /** The number a string of decimal digits denotes. */
  function DigitsValue(d: string): nat
    requires AllDigits(d)
  {
    if d == [] then 0 else DigitsValue(d[..|d| - 1]) * 10 + DigitValue(d[|d| - 1])
  }

  /**
   * `u64::from_str` on the trimmed text: an optional `+`, then one or more
   * decimal digits whose value fits in 64 bits.
   */
  function ParseUInt(s: string): (r: Result<nat, Error>)
    ensures r.Ok? ==> r.value <= U64_MAX
  {
    UIntOfTrimmed(Trim(s))
  }

  /** The unsigned parse of text that is already trimmed. */
  function UIntOfTrimmed(t: string): (r: Result<nat, Error>)
    ensures r.Ok? ==> r.value <= U64_MAX
  {
    var d := if |t| > 0 && t[0] == '+' then t[1..] else t;
    if d == [] || !AllDigits(d) || DigitsValue(d) > U64_MAX then Err(ParseIntError(t))
    else Ok(DigitsValue(d))
  }

  function DigitChar(n: nat): char
    requires n < 10
  {
    ('0' as int + n) as char
  }

  /** The shortest decimal text of `n`. */
  function Decimal(n: nat): (r: string)
    ensures r != [] && AllDigits(r)
  {
    if n < 10 then [DigitChar(n)] else Decimal(n / 10) + [DigitChar(n % 10)]
  }

  lemma {:induction false} DecimalValue(n: nat)
    ensures DigitsValue(Decimal(n)) == n
  {
    if n >= 10 {
      var d := Decimal(n);
      assert d[..|d| - 1] == Decimal(n / 10);
      DecimalValue(n / 10);
    }
  }

  /** Every 64-bit value survives printing in decimal and parsing back. */
  lemma ParseUIntDecimal(n: nat)
    requires n <= U64_MAX
    ensures ParseUInt(Decimal(n)) == Ok(n)
  {
    var d := Decimal(n);
    TightTrim(d);
    assert d[0] != '+';
    DecimalValue(n);
    assert ParseUInt(d) == UIntOfTrimmed(d);
  }

  /** "1" parses to 1; "-1" and "derp" are rejected. */
  lemma ParseUIntExamples(one: string, minusOne: string, derp: string)
    requires one == "1" && minusOne == "-1" && derp == "derp"
    ensures ParseUInt(one) == Ok(1)
    ensures ParseUInt(minusOne).Err?
    ensures ParseUInt(derp).Err?
  {
    assert Decimal(1) == one;
    ParseUIntDecimal(1);
    NotDigitRejected(minusOne);
    NotDigitRejected(derp);
  }

  /** Tight text starting with neither `+` nor a digit is not a number. */
  lemma NotDigitRejected(t: string)
    requires |t| >= 2 && !IsWhitespace(t[0]) && !IsWhitespace(t[|t| - 1]) && t[0] != '+' && !IsDigit(t[0])
    ensures ParseUInt(t).Err?
  {
    TightTrim(t);
    assert ParseUInt(t) == UIntOfTrimmed(t);
  }

  // ---------------------------------------------------------------------
  // Floats, booleans, strings
  // ---------------------------------------------------------------------

  /**
   * The trimmed text is first checked against the infinity keywords; any
   * other text goes to the float parser `decimal`, an input of the model,
   * which may itself read other spellings of infinity.
   */
  function ParseFloat(s: string, decimal: string -> Option<FloatValue>): (r: Result<FloatValue, Error>)
    ensures Trim(s) in {"-inf", "-INF"} ==> r == Ok(NegInf)
    ensures Trim(s) in {"inf", "INF", "+inf", "+INF"} ==> r == Ok(PosInf)
    ensures Trim(s) !in {"-inf", "-INF", "inf", "INF", "+inf", "+INF"} ==>
      (r.Ok? <==> decimal(Trim(s)).Some?) && (r.Ok? ==> decimal(Trim(s)) == Some(r.value)) &&
      (r.Err? ==> r.error == ParseFloatError(Trim(s)))
  {
    FloatOfTrimmed(Trim(s), decimal)
  }

  /** The float parse of text that is already trimmed. */
  function FloatOfTrimmed(t: string, decimal: string -> Option<FloatValue>): (r: Result<FloatValue, Error>)
    ensures t in {"-inf", "-INF"} ==> r == Ok(NegInf)
    ensures t in {"inf", "INF", "+inf", "+INF"} ==> r == Ok(PosInf)
    ensures t !in {"-inf", "-INF", "inf", "INF", "+inf", "+INF"} ==>
      (r.Ok? <==> decimal(t).Some?) && (r.Ok? ==> decimal(t) == Some(r.value)) &&
      (r.Err? ==> r.error == ParseFloatError(t))
  {
    if t == "-inf" || t == "-INF" then Ok(NegInf)
    else if t == "inf" || t == "INF" || t == "+inf" || t == "+INF" then Ok(PosInf)
    else match decimal(t)
      case Some(x) => Ok(x)
      case None => Err(ParseFloatError(t))
  }

  const TrueWords: set<string> := {"true", "t", "yes", "1"}
  const FalseWords: set<string> := {"false", "f", "no", "0"}

  /** Case-sensitive boolean words; anything else is an internal error. */
  function ParseBool(s: string): (r: Result<bool, Error>)
    ensures r == Ok(true) <==> Trim(s) in TrueWords
    ensures r == Ok(false) <==> Trim(s) in FalseWords
    ensures r.Err? <==> Trim(s) !in TrueWords + FalseWords
  {
    BoolOfTrimmed(Trim(s))
  }

  /** The boolean parse of text that is already trimmed. */
  function BoolOfTrimmed(t: string): (r: Result<bool, Error>)
    ensures r == Ok(true) <==> t in TrueWords
    ensures r == Ok(false) <==> t in FalseWords
    ensures r.Err? <==> t !in TrueWords + FalseWords
  {
    if t in TrueWords then Ok(true)
    else if t in FalseWords then Ok(false)
    else Err(Sampler(InternalError("Bad boolean value in sampler option")))
  }

  function ParseString(s: string): (r: Result<string, Error>)
    ensures r.Ok? && Tight(r.value)
  {
    Ok(Trim(s))
  }

  /** Parses `s` as a value of kind `typ`; a success always has that kind. */
  function ParseValue(typ: OptionType, s: string, decimal: string -> Option<FloatValue>): (r: Result<OptionValue, Error>)
    ensures r.Ok? ==> TypeOf(r.value) == typ
    ensures typ == UIntType ==> (r.Ok? <==> ParseUInt(s).Ok?)
    ensures typ == FloatType ==> (r.Ok? <==> ParseFloat(s, decimal).Ok?)
    ensures typ == BoolType ==> (r.Ok? <==> ParseBool(s).Ok?)
    ensures typ == StringType ==> r.Ok?
  {
    match typ
    case UIntType => (match ParseUInt(s) case Ok(n) => Ok(UInt(n)) case Err(e) => Err(e))
    case FloatType => (match ParseFloat(s, decimal) case Ok(f) => Ok(Float(f)) case Err(e) => Err(e))
    case BoolType => (match ParseBool(s) case Ok(b) => Ok(Bool(b)) case Err(e) => Err(e))
    case StringType => (match ParseString(s) case Ok(t) => Ok(Str(t)) case Err(e) => Err(e))
  }

  /** A parser only looks at the trimmed text. */
  lemma ParseValueOfTrim(typ: OptionType, a: string, b: string, decimal: string -> Option<FloatValue>)
    requires Trim(a) == Trim(b)
    ensures ParseValue(typ, a, decimal) == ParseValue(typ, b, decimal)
  {
    match typ
    case UIntType => assert ParseUInt(a) == ParseUInt(b);
    case FloatType => assert ParseFloat(a, decimal) == ParseFloat(b, decimal);
    case BoolType => assert ParseBool(a) == ParseBool(b);
    case StringType => assert ParseString(a) == ParseString(b);
  }

  /** Each parser reads through any padding of whitespace around the text. */
  lemma ParsersIgnorePadding(ws1: string, t: string, ws2: string, typ: OptionType, decimal: string -> Option<FloatValue>)
    requires AllWhitespace(ws1) && AllWhitespace(ws2) && Tight(t)
    ensures ParseValue(typ, ws1 + t + ws2, decimal) == ParseValue(typ, t, decimal)
  {
    TrimPadded(ws1, t, ws2);
    TightTrim(t);
    ParseValueOfTrim(typ, ws1 + t + ws2, t, decimal);
  }
}
