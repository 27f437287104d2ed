/**
 * Node configuration and bootstrap: the environment-variable schema, the
 * feature-flag list, and `loadBindings`, which settles the configuration and
 * seeds a fresh accounts cache with the node's own root account, stored with
 * an unbounded lifetime.
 *
 * The URL check on the public endpoint and the derivation of the node
 * identity from its secret key are library and cryptographic code; they are
 * parameters here.
 */
module Env {
  import opened Wrappers
  import opened AccountTypes
  import opened AccountCache
  import Utf16

  const PRIVATE_KEY_LENGTH: nat := 64
  const MIN_DB_NAME_LENGTH: nat := 4
  const DB_URI_PREFIX: string := "mongodb"

  datatype LogLevel = Debug | Info | Warn | Error
  {
    function Name(): string
    {
      match this
      case Debug => "debug"
      case Info => "info"
      case Warn => "warn"
      case Error => "error"
    }
  }

  const LOG_LEVELS: seq<LogLevel> := [Debug, Info, Warn, Error]

  datatype FeatureFlag = OpenapiDocs | PrometheusMetrics | Migrations
  {
    function Name(): string
    {
      match this
      case OpenapiDocs => "openapi-docs"
      case PrometheusMetrics => "prometheus-metrics"
      case Migrations => "migrations"
    }
  }

  /** A settled configuration. */
  datatype EnvVars = EnvVars(
    dbNamePrimary: string,
    dbNameData: string,
    dbUri: string,
    env: Network,
    enabledFeatures: seq<string>,
    logLevel: LogLevel,
    nodeSecretKey: string,
    nodePublicEndpoint: string,
    metricsPort: int,
    mqUri: Option<string>,
    webPort: int)

  predicate StartsWith(s: string, prefix: string)
  {
    |prefix| <= |s| && s[..|prefix|] == prefix
  }

  /** The field constraints of the environment schema, on a settled configuration; lengths are zod's UTF-16 lengths. */
  predicate SatisfiesSchema(c: EnvVars, isUrl: string -> bool)
  {
    && Utf16.Length(c.dbNamePrimary) >= MIN_DB_NAME_LENGTH
    && Utf16.Length(c.dbNameData) >= MIN_DB_NAME_LENGTH
    && StartsWith(c.dbUri, DB_URI_PREFIX)
    && Utf16.Length(c.nodeSecretKey) >= PRIVATE_KEY_LENGTH
    && isUrl(c.nodePublicEndpoint)
    && c.metricsPort > 0
    && c.webPort > 0
  }

  // ---------------------------------------------------------------------
  // Splitting the feature list on commas

  /** The comma-separated pieces of `s`, in order; the empty string is one empty piece. */
  function Split(s: string): (r: seq<string>)
    ensures |r| >= 1
    ensures forall i :: 0 <= i < |r| ==> ',' !in r[i]
  {
    if s == [] then [[]]
    else if s[0] == ',' then [[]] + Split(s[1..])
    else
      var rest := Split(s[1..]);
      [[s[0]] + rest[0]] + rest[1..]
  }

  /** The pieces glued back with commas. */
  function Join(pieces: seq<string>): string
    requires |pieces| >= 1
  {
    if |pieces| == 1 then pieces[0] else pieces[0] + [','] + Join(pieces[1..])
  }

  /** Prepending a character to the first piece prepends it to the join. */
  lemma JoinExtendsFirst(c: char, pieces: seq<string>)
    requires |pieces| >= 1
    ensures Join([[c] + pieces[0]] + pieces[1..]) == [c] + Join(pieces)
  {
    var q := [[c] + pieces[0]] + pieces[1..];
    assert q[0] == [c] + pieces[0] && |q| == |pieces|;
    if |pieces| > 1 {
      assert q[1..] == pieces[1..];
      assert Join(q) == ([c] + pieces[0]) + [','] + Join(pieces[1..]);
      CommaRegroups([c], pieces[0], Join(pieces[1..]));
    }
  }

  lemma CommaRegroups(a: string, b: string, d: string)
    ensures (a + b) + [','] + d == a + (b + [','] + d)
  {
  }

  /** Joining the pieces of a string gives the string back. */
  lemma {:induction false} JoinSplit(s: string)
    ensures Join(Split(s)) == s
  {
    if s != [] {
      JoinSplit(s[1..]);
      var rest := Split(s[1..]);
      if s[0] == ',' {
        assert Split(s)[1..] == rest;
        assert Join(Split(s)) == [] + [','] + Join(rest);
      } else {
        JoinExtendsFirst(s[0], rest);
      }
      assert s == [s[0]] + s[1..];
    }
  }

  /** Splitting a comma-free prefix in front of `t` extends the first piece of `t`. */
  lemma {:induction false} SplitExtendsFirst(a: string, t: string)
    requires ',' !in a
    ensures Split(a + t) == [a + Split(t)[0]] + Split(t)[1..]
  {
    if a != [] {
      SplitExtendsFirst(a[1..], t);
      assert (a + t)[1..] == a[1..] + t;
      assert (a + t)[0] == a[0];
      assert [a[0]] + (a[1..] + Split(t)[0]) == a + Split(t)[0];
    } else {
      assert a + t == t;
      assert a + Split(t)[0] == Split(t)[0];
      assert Split(t) == [Split(t)[0]] + Split(t)[1..];
    }
  }

  /** Comma-free pieces are recovered by splitting their join. */
  lemma {:induction false} SplitJoin(pieces: seq<string>)
    requires |pieces| >= 1
    requires forall i :: 0 <= i < |pieces| ==> ',' !in pieces[i]
    ensures Split(Join(pieces)) == pieces
  {
    if |pieces| == 1 {
      SplitExtendsFirst(pieces[0], []);
      assert pieces[0] + [] == pieces[0];
    } else {
      var tail := Join(pieces[1..]);
      SplitJoin(pieces[1..]);
      SplitExtendsFirst(pieces[0], [','] + tail);
      assert ([','] + tail)[1..] == tail;
      assert Split([','] + tail) == [[]] + pieces[1..];
      assert pieces[0] + [','] + tail == pieces[0] + ([','] + tail);
      assert pieces[0] + [] == pieces[0];
      assert pieces == [pieces[0]] + pieces[1..];
    }
  }

  /**
   * The feature list as read from `APP_ENABLED_FEATURES`: empty when the
   * variable is unset or empty, otherwise its comma-separated pieces in order.
   */
  function EnabledFeatures(variable: Option<string>): (r: seq<string>)
    ensures r == [] <==> variable.None? || variable.value == ""
    ensures r != [] ==> Join(r) == variable.value
    ensures forall i :: 0 <= i < |r| ==> ',' !in r[i]
  {
    if variable.None? || variable.value == "" then []
    else
      JoinSplit(variable.value);
      Split(variable.value)
  }

  /** `enabledFeatures.includes(flag)`. */
  function HasFeatureFlag(enabledFeatures: seq<string>, flag: FeatureFlag): (r: bool)
    ensures r <==> flag.Name() in enabledFeatures
  {
    if enabledFeatures == [] then false
    else enabledFeatures[0] == flag.Name() || HasFeatureFlag(enabledFeatures[1..], flag)
  }

  /** A flag is on exactly when it is one of the comma-separated pieces of the variable. */
  lemma FlagFromVariable(variable: string, flag: FeatureFlag)
    requires variable != ""
    ensures HasFeatureFlag(EnabledFeatures(Some(variable)), flag) <==> flag.Name() in Split(variable)
  {
  }

  // ---------------------------------------------------------------------
  // Parsing the process environment

  /** The variables of the process environment the node reads; `None` when unset. */
  datatype ProcessEnv = ProcessEnv(
    appDbNamePrimary: Option<string>,
    appDbNameData: Option<string>,
    appDbUri: Option<string>,
    appEnabledFeatures: Option<string>,
    appEnv: Option<string>,
    appLogLevel: Option<string>,
    appNodeSecretKey: Option<string>,
    appNodePublicEndpoint: Option<string>,
    appMetricsPort: Option<string>,
    appMqUri: Option<string>,
    appPort: Option<string>)

  /**
   * The object handed to the schema. `None` for a port is a `Number()` result
   * that is not an integer (NaN, an infinity or a fraction).
   */
  datatype SchemaInput = SchemaInput(
    dbNamePrimary: Option<string>,
    dbNameData: Option<string>,
    dbUri: Option<string>,
    enabledFeatures: seq<string>,
    env: Option<string>,
    logLevel: Option<string>,
    nodeSecretKey: Option<string>,
    nodePublicEndpoint: Option<string>,
    metricsPort: Option<int>,
    mqUri: Option<string>,
    webPort: Option<int>)

  // ---------------------------------------------------------------------
  // `Number()` on an environment value

  /** The white space and line terminators `Number()` ignores around a numeral. */
  predicate IsJsSpace(c: char)
  {
    || c == '\t' || c == '\n' || c == '\U{B}' || c == '\U{C}' || c == '\r' || c == ' '
    || c == '\U{A0}' || c == '\U{1680}' || '\U{2000}' <= c <= '\U{200A}' || c == '\U{2028}'
    || c == '\U{2029}' || c == '\U{202F}' || c == '\U{205F}' || c == '\U{3000}' || c == '\U{FEFF}'
  }

  /** `s` without its leading white space. */
  function TrimStart(s: string): (t: string)
    ensures |t| <= |s| && t == s[|s| - |t|..]
    ensures t == [] || !IsJsSpace(t[0])
    ensures forall i :: 0 <= i < |s| - |t| ==> IsJsSpace(s[i])
  {
    if s != [] && IsJsSpace(s[0]) then TrimStart(s[1..]) else s
  }

  /** `s` without its trailing white space. */
  function TrimEnd(s: string): (t: string)
    ensures |t| <= |s| && t == s[..|t|]
    ensures t == [] || !IsJsSpace(t[|t| - 1])
    ensures forall i :: |t| <= i < |s| ==> IsJsSpace(s[i])
  {
    if s != [] && IsJsSpace(s[|s| - 1]) then TrimEnd(s[..|s| - 1]) else s
  }

  function Trim(s: string): string
  {
    TrimEnd(TrimStart(s))
  }

  /** The value of `c` as a digit of base `radix`, letters in either case, if it is one. */
  function DigitIn(c: char, radix: nat): (d: Option<nat>)
    ensures d.Some? ==> d.value < radix
  {
    var v := if '0' <= c <= '9' then c as int - '0' as int
             else if 'a' <= c <= 'z' then c as int - 'a' as int + 10
             else if 'A' <= c <= 'Z' then c as int - 'A' as int + 10
             else radix;
    if v < radix then Some(v) else None
  }

  predicate AllDigitsIn(s: string, radix: nat)
  {
    forall i :: 0 <= i < |s| ==> DigitIn(s[i], radix).Some?
  }

  /** The value of a string of base-`radix` digits, most significant first. */
  function ValueIn(s: string, radix: nat): nat
    requires AllDigitsIn(s, radix)
  {
    if s == [] then 0 else ValueIn(s[..|s| - 1], radix) * radix + DigitIn(s[|s| - 1], radix).value
  }

  /** Appending a digit multiplies the value by the base and adds the digit. */
  lemma ValueInSnoc(s: string, c: char, radix: nat)
    requires AllDigitsIn(s + [c], radix)
    ensures AllDigitsIn(s, radix) && DigitIn(c, radix).Some?
    ensures ValueIn(s + [c], radix) == ValueIn(s, radix) * radix + DigitIn(c, radix).value
  {
    assert (s + [c])[..|s|] == s && (s + [c])[|s|] == c;
    assert forall i :: 0 <= i < |s| ==> s[i] == (s + [c])[i];
  }

  /** The length of the run of decimal digits that starts `s`. */
  function DigitRun(s: string): (n: nat)
    ensures n <= |s| && AllDigitsIn(s[..n], 10)
    ensures n == |s| || DigitIn(s[n], 10).None?
  {
    if s != [] && DigitIn(s[0], 10).Some? then
      var n := 1 + DigitRun(s[1..]);
      assert forall i :: 1 <= i < n ==> s[..n][i] == s[1..][..n - 1][i - 1];
      n
    else 0
  }

  /** `a * 10^k`: `a` with `k` zeros appended. */
  function Shift(a: nat, k: nat): nat
  {
    if k == 0 then a else 10 * Shift(a, k - 1)
  }

  /**
   * A decimal numeral without its sign: the value of its digits with the
   * point removed, how many digits follow the point, and its exponent.
   */
  datatype Numeral = Numeral(mantissa: nat, fractionLength: nat, exponent: int)

  /** An exponent part (`e` or `E`, an optional sign, digits), or nothing at all. */
  function ExponentOf(s: string): (r: Option<int>)
    ensures s == [] ==> r == Some(0)
  {
    if s == [] then Some(0)
    else if s[0] != 'e' && s[0] != 'E' then None
    else
      var t := s[1..];
      var digits := if t != [] && (t[0] == '+' || t[0] == '-') then t[1..] else t;
      if digits == [] || !AllDigitsIn(digits, 10) then None
      else
        var magnitude: int := ValueIn(digits, 10);
        Some(if t[0] == '-' then -magnitude else magnitude)
  }

  /** An unsigned decimal numeral: digits, a point, digits, an exponent, with at least one digit. */
  function UnsignedNumeral(s: string): Option<Numeral>
  {
    var n := DigitRun(s);
    AfterWhole(s[..n], s[n..])
  }

  /** The rest of an unsigned numeral after its leading digits `whole`. */
  function AfterWhole(whole: string, rest: string): Option<Numeral>
    requires AllDigitsIn(whole, 10)
  {
    if rest != [] && rest[0] == '.' then AfterPoint(whole, rest[1..])
    else
      var e := ExponentOf(rest);
      if whole == [] || e.None? then None else Some(Numeral(ValueIn(whole, 10), 0, e.value))
  }

  /** The rest of an unsigned numeral after the point that follows `whole`. */
  function AfterPoint(whole: string, rest: string): Option<Numeral>
    requires AllDigitsIn(whole, 10)
  {
    var m := DigitRun(rest);
    PointNumeral(whole, rest[..m], rest[m..])
  }

  /** The digits of `whole.fraction` read as one integer, the point removed. */
  function PointMantissa(whole: string, fraction: string): nat
    requires AllDigitsIn(whole, 10) && AllDigitsIn(fraction, 10)
  {
    Shift(ValueIn(whole, 10), |fraction|) + ValueIn(fraction, 10)
  }

  /** The numeral `whole.fraction` followed by the exponent part `tail`. */
  function PointNumeral(whole: string, fraction: string, tail: string): Option<Numeral>
    requires AllDigitsIn(whole, 10) && AllDigitsIn(fraction, 10)
  {
    var e := ExponentOf(tail);
    if |whole| + |fraction| == 0 || e.None? then None
    else Some(Numeral(PointMantissa(whole, fraction), |fraction|, e.value))
  }

  lemma UnsignedNumeralOfDigits(s: string)
    requires s != [] && AllDigitsIn(s, 10)
    ensures UnsignedNumeral(s) == Some(Numeral(ValueIn(s, 10), 0, 0))
  {
    var n := DigitRun(s);
    assert n == |s|;
    assert s[..n] == s && s[n..] == [];
  }

  function Abs(x: int): nat
  {
    if x < 0 then -x else x
  }

  /** `a / 10^k` when `a` ends in `k` zeros, and `None` otherwise. */
  function Unshift(a: nat, k: nat): Option<nat>
  {
    if k == 0 then Some(a) else if a % 10 != 0 then None else Unshift(a / 10, k - 1)
  }

  /** Dropping `k` zeros undoes appending them, and succeeds for nothing else. */
  lemma {:induction false} UnshiftUndoesShift(a: nat, k: nat, b: nat)
    ensures Unshift(a, k) == Some(b) <==> Shift(b, k) == a
  {
    if k > 0 {
      UnshiftUndoesShift(a / 10, k - 1, b);
    }
  }

  /** The number `mantissa * 10^scale` with the given sign, when it is an integer. */
  function ScaledInteger(negative: bool, mantissa: nat, scale: int): Option<int>
  {
    var magnitude := if scale >= 0 then Some(Shift(mantissa, scale)) else Unshift(mantissa, -scale);
    if magnitude.None? then None
    else Some(if negative then -(magnitude.value as int) else magnitude.value)
  }

  /**
   * A scaled numeral is an integer always for a non-negative scale, and for
   * a negative one exactly when some integer times `10^-scale` is the
   * mantissa; that integer, with the sign, is the result.
   */
  lemma ScaledIntegerIsExact(negative: bool, mantissa: nat, scale: int, b: nat)
    ensures var r := ScaledInteger(negative, mantissa, scale);
      && (scale >= 0 ==> r.Some? && Abs(r.value) == Shift(mantissa, scale))
      && (scale < 0 ==> (r.Some? && Abs(r.value) == b <==> Shift(b, -scale) == mantissa))
      && (r.Some? && r.value != 0 ==> (r.value < 0 <==> negative))
  {
    if scale < 0 {
      UnshiftUndoesShift(mantissa, -scale, b);
    }
  }

  /** The base that a `0x`, `0o` or `0b` prefix letter selects, or 0 for any other character. */
  function RadixOf(c: char): nat
  {
    if c == 'x' || c == 'X' then 16 else if c == 'o' || c == 'O' then 8 else if c == 'b' || c == 'B' then 2 else 0
  }

  /**
   * `Number(v)` on an environment value, as an integer: `None` when the
   * result is NaN, infinite or not a whole number, all of which the schema's
   * `int()` rejects alike. Unset is NaN. Surrounding white space is ignored,
   * and what remains is 0 when empty, a `0x`/`0o`/`0b` integer without sign,
   * or a signed decimal numeral with an optional point and exponent.
   */
  function NumberOf(v: Option<string>): (r: Option<int>)
    ensures v.None? ==> r.None?
    ensures v.Some? && Trim(v.value) == [] ==> r == Some(0)
  {
    if v.None? then None else NumeralValue(Trim(v.value))
  }

  /** `Number()` on a string without surrounding white space. */
  function NumeralValue(t: string): (r: Option<int>)
    ensures t == [] ==> r == Some(0)
  {
    if t == [] then Some(0)
    else if |t| > 1 && t[0] == '0' && RadixOf(t[1]) > 0 then PrefixedInteger(t[2..], RadixOf(t[1]))
    else if t[0] == '+' || t[0] == '-' then SignedNumeral(t[0] == '-', t[1..])
    else SignedNumeral(false, t)
  }

  /** The digits after a `0x`, `0o` or `0b` prefix: at least one, all of the prefix's base. */
  function PrefixedInteger(digits: string, radix: nat): Option<int>
  {
    if digits != [] && AllDigitsIn(digits, radix) then Some(ValueIn(digits, radix)) else None
  }

  /** A decimal numeral with the given sign, as an integer if it is one. */
  function SignedNumeral(negative: bool, s: string): Option<int>
  {
    ScaledNumeral(negative, UnsignedNumeral(s))
  }

  /** A numeral, if there is one, scaled by its exponent less its fraction length, with the given sign. */
  function ScaledNumeral(negative: bool, numeral: Option<Numeral>): Option<int>
  {
    if numeral.None? then None
    else ScaledInteger(negative, numeral.value.mantissa, numeral.value.exponent - numeral.value.fractionLength)
  }

  lemma {:induction false} TrimStartSkipsSpace(a: string, s: string)
    requires forall i :: 0 <= i < |a| ==> IsJsSpace(a[i])
    requires s == [] || !IsJsSpace(s[0])
    ensures TrimStart(a + s) == s
  {
    if a != [] {
      assert (a + s)[1..] == a[1..] + s;
      TrimStartSkipsSpace(a[1..], s);
    }
  }

  lemma {:induction false} TrimEndSkipsSpace(s: string, b: string)
    requires forall i :: 0 <= i < |b| ==> IsJsSpace(b[i])
    requires s == [] || !IsJsSpace(s[|s| - 1])
    ensures TrimEnd(s + b) == s
  {
    if b != [] {
      assert (s + b)[..|s + b| - 1] == s + b[..|b| - 1];
      TrimEndSkipsSpace(s, b[..|b| - 1]);
    }
  }

  /** White space around a string that neither starts nor ends with white space is trimmed away. */
  lemma TrimIgnoresSpace(a: string, s: string, b: string)
    requires forall i :: 0 <= i < |a| ==> IsJsSpace(a[i])
    requires forall i :: 0 <= i < |b| ==> IsJsSpace(b[i])
    requires s == [] || (!IsJsSpace(s[0]) && !IsJsSpace(s[|s| - 1]))
    ensures Trim(a + s + b) == s
  {
    if s == [] {
      assert forall i :: 0 <= i < |a + b| ==> IsJsSpace((a + b)[i]);
      assert a + s + b == a + b;
    } else {
      assert a + s + b == a + (s + b);
      assert (s + b)[0] == s[0];
      TrimStartSkipsSpace(a, s + b);
      TrimEndSkipsSpace(s, b);
    }
  }

  lemma SignedIntegerValue(sign: string, digits: string)
    requires sign == "" || sign == "+" || sign == "-"
    requires digits != [] && AllDigitsIn(digits, 10)
    ensures NumeralValue(sign + digits)
         == Some(if sign == "-" then -(ValueIn(digits, 10) as int) else ValueIn(digits, 10))
  {
    DigitsNumeral(sign == "-", digits);
    if sign == "" {
      assert sign + digits == digits;
      UnsignedIntegerValue(digits);
    } else {
      var t := sign + digits;
      assert t[0] == sign[0] && t[1..] == digits;
    }
  }

  lemma UnsignedIntegerValue(digits: string)
    requires digits != [] && AllDigitsIn(digits, 10)
    ensures NumeralValue(digits) == SignedNumeral(false, digits)
  {
    assert DigitIn(digits[0], 10).Some?;
    if |digits| > 1 {
      assert DigitIn(digits[1], 10).Some?;
    }
  }

  lemma DigitsNumeral(negative: bool, digits: string)
    requires digits != [] && AllDigitsIn(digits, 10)
    ensures SignedNumeral(negative, digits) == Some(if negative then -(ValueIn(digits, 10) as int) else ValueIn(digits, 10))
  {
    UnsignedNumeralOfDigits(digits);
    SignedNumeralOf(negative, digits, Numeral(ValueIn(digits, 10), 0, 0));
    ScaledIntegerAtZero(negative, ValueIn(digits, 10));
  }

  lemma ScaledIntegerAtZero(negative: bool, mantissa: nat)
    ensures ScaledInteger(negative, mantissa, 0) == Some(if negative then -(mantissa as int) else mantissa)
  {
    assert Shift(mantissa, 0) == mantissa;
  }

  lemma {:induction false} DigitRunOf(d: string, rest: string)
    requires AllDigitsIn(d, 10)
    requires rest == [] || DigitIn(rest[0], 10).None?
    ensures DigitRun(d + rest) == |d|
  {
    if d != [] {
      assert (d + rest)[0] == d[0] && (d + rest)[1..] == d[1..] + rest;
      assert AllDigitsIn(d[1..], 10) by {
        assert forall i :: 0 <= i < |d[1..]| ==> d[1..][i] == d[i + 1];
      }
      DigitRunOf(d[1..], rest);
    } else {
      assert d + rest == rest;
    }
  }

  lemma AfterPointOf(whole: string, fraction: string, exponent: string, e: int)
    requires AllDigitsIn(whole, 10) && AllDigitsIn(fraction, 10) && |whole| + |fraction| > 0
    requires ExponentOf(exponent) == Some(e)
    ensures AfterPoint(whole, fraction + exponent)
         == Some(Numeral(PointMantissa(whole, fraction), |fraction|, e))
  {
    var rest := fraction + exponent;
    DigitRunOf(fraction, exponent);
    assert rest[..|fraction|] == fraction;
    assert rest[|fraction|..] == exponent;
    PointNumeralOf(whole, fraction, exponent, e);
  }

  lemma PointNumeralOf(whole: string, fraction: string, exponent: string, e: int)
    requires AllDigitsIn(whole, 10) && AllDigitsIn(fraction, 10) && |whole| + |fraction| > 0
    requires ExponentOf(exponent) == Some(e)
    ensures PointNumeral(whole, fraction, exponent)
         == Some(Numeral(PointMantissa(whole, fraction), |fraction|, e))
  {
  }

  lemma UnsignedNumeralWithPoint(whole: string, fraction: string, exponent: string, e: int)
    requires AllDigitsIn(whole, 10) && AllDigitsIn(fraction, 10) && |whole| + |fraction| > 0
    requires ExponentOf(exponent) == Some(e)
    ensures UnsignedNumeral(whole + "." + fraction + exponent)
         == Some(Numeral(PointMantissa(whole, fraction), |fraction|, e))
  {
    var tail := fraction + exponent;
    PointRegroups(whole, fraction, exponent);
    UnsignedNumeralPoint(whole, "." + tail);
    assert ("." + tail)[1..] == tail;
    AfterPointOf(whole, fraction, exponent, e);
  }

  lemma PointRegroups(whole: string, fraction: string, exponent: string)
    ensures whole + "." + fraction + exponent == whole + ("." + (fraction + exponent))
  {
  }

  lemma UnsignedNumeralPoint(whole: string, rest: string)
    requires AllDigitsIn(whole, 10)
    requires rest != [] && rest[0] == '.'
    ensures UnsignedNumeral(whole + rest) == AfterPoint(whole, rest[1..])
  {
    UnsignedNumeralSplits(whole, rest);
    AfterWholePoint(whole, rest);
  }

  /** A numeral splits after its leading digits. */
  lemma UnsignedNumeralSplits(whole: string, rest: string)
    requires AllDigitsIn(whole, 10)
    requires rest == [] || DigitIn(rest[0], 10).None?
    ensures UnsignedNumeral(whole + rest) == AfterWhole(whole, rest)
  {
    var s := whole + rest;
    DigitRunOf(whole, rest);
    assert s[..|whole|] == whole && s[|whole|..] == rest;
  }

  lemma AfterWholePoint(whole: string, rest: string)
    requires AllDigitsIn(whole, 10)
    requires rest != [] && rest[0] == '.'
    ensures AfterWhole(whole, rest) == AfterPoint(whole, rest[1..])
  {
  }

  lemma UnsignedNumeralWithoutPoint(whole: string, exponent: string, e: int)
    requires whole != [] && AllDigitsIn(whole, 10)
    requires ExponentOf(exponent) == Some(e)
    ensures UnsignedNumeral(whole + exponent) == Some(Numeral(ValueIn(whole, 10), 0, e))
  {
    var s := whole + exponent;
    DigitRunOf(whole, exponent);
    assert s[..|whole|] == whole && s[|whole|..] == exponent;
  }

  /** White space around a numeral makes no difference to `Number()`. */
  lemma NumberOfTrims(a: string, t: string, b: string)
    requires forall i :: 0 <= i < |a| ==> IsJsSpace(a[i])
    requires forall i :: 0 <= i < |b| ==> IsJsSpace(b[i])
    requires t == [] || (!IsJsSpace(t[0]) && !IsJsSpace(t[|t| - 1]))
    ensures NumberOf(Some(a + t + b)) == NumeralValue(t)
  {
    TrimIgnoresSpace(a, t, b);
  }

  /**
   * A decimal integer, with or without a `+` or `-` sign and with any white
   * space around it, is its value: `Number(" +8080 ")` is 8080.
   */
  lemma NumberOfInteger(a: string, sign: string, digits: string, b: string)
    requires forall i :: 0 <= i < |a| ==> IsJsSpace(a[i])
    requires forall i :: 0 <= i < |b| ==> IsJsSpace(b[i])
    requires sign == "" || sign == "+" || sign == "-"
    requires digits != [] && AllDigitsIn(digits, 10)
    ensures NumberOf(Some(a + sign + digits + b))
         == Some(if sign == "-" then -(ValueIn(digits, 10) as int) else ValueIn(digits, 10))
  {
    var t := sign + digits;
    assert a + sign + digits + b == a + t + b;
    assert DigitIn(t[0], 10).Some? || t[0] == '+' || t[0] == '-';
    assert DigitIn(t[|t| - 1], 10).Some?;
    NumberOfTrims(a, t, b);
    SignedIntegerValue(sign, digits);
  }

  /** `t` starts with neither a sign nor a `0x`, `0o` or `0b` prefix. */
  predicate PlainStart(t: string)
  {
    && t != [] && t[0] != '+' && t[0] != '-'
    && (|t| > 1 ==> t[0] != '0' || RadixOf(t[1]) == 0)
  }

  /** Digits followed by something other than a prefix letter start plainly. */
  lemma DigitsStartPlain(whole: string, rest: string)
    requires whole != [] && AllDigitsIn(whole, 10)
    requires rest != [] ==> RadixOf(rest[0]) == 0
    ensures PlainStart(whole + rest)
  {
    var u := whole + rest;
    assert u[0] == whole[0];
    DigitIsPlain(u[0]);
    if |whole| > 1 {
      assert u[1] == whole[1];
      DigitIsPlain(u[1]);
    } else if |u| > 1 {
      assert u[1] == rest[0];
    }
  }

  lemma NumeralValueUnsigned(t: string)
    requires PlainStart(t)
    ensures NumeralValue(t) == SignedNumeral(false, t)
  {
  }

  lemma NumeralValueSigned(sign: string, u: string)
    requires sign == "+" || sign == "-"
    ensures NumeralValue(sign + u) == SignedNumeral(sign == "-", u)
  {
    var t := sign + u;
    assert t[0] == sign[0] && t[1..] == u;
  }

  lemma SignedNumeralOf(negative: bool, u: string, n: Numeral)
    requires UnsignedNumeral(u) == Some(n)
    ensures SignedNumeral(negative, u) == ScaledInteger(negative, n.mantissa, n.exponent - n.fractionLength)
  {
    ScaledNumeralOf(negative, UnsignedNumeral(u), n);
  }

  lemma ScaledNumeralOf(negative: bool, numeral: Option<Numeral>, n: Numeral)
    requires numeral == Some(n)
    ensures ScaledNumeral(negative, numeral) == ScaledInteger(negative, n.mantissa, n.exponent - n.fractionLength)
  {
  }

  /** With a sign, or before a character that is no digit, prefix letter or sign, a numeral reads the same. */
  lemma NumeralValueOfSigned(sign: string, u: string)
    requires sign == "" || sign == "+" || sign == "-"
    requires PlainStart(u)
    ensures NumeralValue(sign + u) == SignedNumeral(sign == "-", u)
  {
    if sign == "" {
      assert sign + u == u;
      NumeralValueUnsigned(u);
    } else {
      NumeralValueSigned(sign, u);
    }
  }

  /** A decimal digit is no sign, point, exponent letter, prefix letter or white space. */
  lemma DigitIsPlain(c: char)
    requires DigitIn(c, 10).Some?
    ensures RadixOf(c) == 0 && c != '+' && c != '-' && c != '.' && c != 'e' && c != 'E' && !IsJsSpace(c)
  {
  }

  lemma ExponentStartsWithE(s: string)
    requires s != [] && ExponentOf(s).Some?
    ensures s[0] == 'e' || s[0] == 'E'
  {
  }

  /** An optionally signed string that reads as an unsigned numeral `n` has the value that `n` scales to. */
  lemma NumeralValueVia(sign: string, u: string, n: Numeral)
    requires sign == "" || sign == "+" || sign == "-"
    requires PlainStart(u)
    requires UnsignedNumeral(u) == Some(n)
    ensures NumeralValue(sign + u) == ScaledInteger(sign == "-", n.mantissa, n.exponent - n.fractionLength)
  {
    NumeralValueOfSigned(sign, u);
    SignedNumeralOf(sign == "-", u, n);
  }

  /** `0x`, `0o` and `0b` followed by digits of that base, without a sign, is their value. */
  lemma NumeralWithPrefix(letter: char, digits: string)
    requires RadixOf(letter) > 0
    requires digits != [] && AllDigitsIn(digits, RadixOf(letter))
    ensures NumeralValue("0" + [letter] + digits) == Some(ValueIn(digits, RadixOf(letter)))
  {
    var t := "0" + [letter] + digits;
    assert t[0] == '0' && t[1] == letter && t[2..] == digits;
  }

  /** A sign before a `0x`, `0o` or `0b` integer makes it NaN. */
  lemma SignedPrefixIsNaN(sign: char, letter: char, digits: string)
    requires sign == '+' || sign == '-'
    requires RadixOf(letter) > 0
    ensures NumeralValue([sign] + "0" + [letter] + digits) == None
  {
    var t := [sign] + "0" + [letter] + digits;
    var u := "0" + [letter] + digits;
    assert t[0] == sign && t[1..] == u;
    DigitRunOf("0", [letter] + digits);
    assert u == "0" + ([letter] + digits);
    assert u[..1] == "0" && u[1..] == [letter] + digits;
  }

  lemma ValueOf8080()
    ensures AllDigitsIn("8080", 10) && ValueIn("8080", 10) == 8080
  {
    ValueOfFourDigits('8', '0', '8', '0', 10);
  }

  /** The value of four digits, most significant first. */
  lemma ValueOfFourDigits(a: char, b: char, c: char, d: char, radix: nat)
    requires DigitIn(a, radix).Some? && DigitIn(b, radix).Some?
    requires DigitIn(c, radix).Some? && DigitIn(d, radix).Some?
    ensures AllDigitsIn([a, b, c, d], radix)
    ensures ValueIn([a, b, c, d], radix)
      == ((DigitIn(a, radix).value * radix + DigitIn(b, radix).value) * radix
          + DigitIn(c, radix).value) * radix + DigitIn(d, radix).value
  {
    var da, db, dc, dd := DigitIn(a, radix).value, DigitIn(b, radix).value, DigitIn(c, radix).value, DigitIn(d, radix).value;
    assert [a] == [] + [a] && [a, b] == [a] + [b] && [a, b, c] == [a, b] + [c] && [a, b, c, d] == [a, b, c] + [d];
    ValueInAppend([], a, radix);
    ValueInAppend([a], b, radix);
    ValueInAppend([a, b], c, radix);
    ValueInAppend([a, b, c], d, radix);
    calc {
      ValueIn([a, b, c, d], radix);
      ValueIn([a, b, c], radix) * radix + dd;
      (ValueIn([a, b], radix) * radix + dc) * radix + dd;
      { assert ValueIn([a, b], radix) == ValueIn([a], radix) * radix + db; assert ValueIn([a], radix) == 0 * radix + da == da; }
      ((da * radix + db) * radix + dc) * radix + dd;
    }
  }

  /** Appending a digit to digits gives digits, whose value is the old one times the base plus the digit. */
  lemma ValueInAppend(s: string, c: char, radix: nat)
    requires AllDigitsIn(s, radix) && DigitIn(c, radix).Some?
    ensures AllDigitsIn(s + [c], radix)
    ensures ValueIn(s + [c], radix) == ValueIn(s, radix) * radix + DigitIn(c, radix).value
  {
    assert forall i :: 0 <= i < |s| ==> (s + [c])[i] == s[i];
    assert (s + [c])[|s|] == c;
    ValueInSnoc(s, c, radix);
  }

  lemma ValueOfOneDigit(c: char)
    requires DigitIn(c, 10).Some?
    ensures AllDigitsIn([c], 10) && ValueIn([c], 10) == DigitIn(c, 10).value
  {
    assert [c] == "" + [c];
    ValueInSnoc("", c, 10);
  }

  /** Surrounding white space and a `+` sign: `Number("\t+8080\n")` is 8080. */
  lemma PortWithSpaceAndSign(digits: string, s: string)
    requires digits == "8080" && s == "\t" + "+" + digits + "\n"
    ensures NumberOf(Some(s)) == Some(8080)
  {
    ValueOf8080();
    NumberOfInteger("\t", "+", digits, "\n");
  }

  /** A string that starts and ends with a digit is read without trimming. */
  lemma NumberOfDigitEnds(t: string)
    requires t != [] && DigitIn(t[0], 10).Some? && DigitIn(t[|t| - 1], 10).Some?
    ensures NumberOf(Some(t)) == NumeralValue(t)
  {
    DigitIsPlain(t[0]);
    DigitIsPlain(t[|t| - 1]);
    NumberOfUntrimmed(t);
  }

  /** A string that neither starts nor ends with white space is read without trimming. */
  lemma NumberOfUntrimmed(t: string)
    requires t != [] && !IsJsSpace(t[0]) && !IsJsSpace(t[|t| - 1])
    ensures NumberOf(Some(t)) == NumeralValue(t)
  {
    EmptyEnds(t);
    NumberOfTrims("", t, "");
  }

  lemma EmptyEnds(t: string)
    ensures "" + t + "" == t
  {
  }

  /** A zero fraction: `Number("8080.0")` is 8080. */
  lemma PortWithPoint(whole: string, fraction: string, s: string)
    requires whole == "8080" && fraction == "0" && s == whole + "." + fraction
    ensures NumberOf(Some(s)) == Some(8080)
  {
    PointValue8080(whole, fraction, s);
    assert s[0] == '8' && s[|s| - 1] == '0';
    NumberOfDigitEnds(s);
  }

  lemma PointValue8080(whole: string, fraction: string, s: string)
    requires whole == "8080" && fraction == "0" && s == whole + "." + fraction
    ensures NumeralValue(s) == Some(8080)
  {
    calc {
      NumeralValue(s);
      { EmptyEnd(s); }
      NumeralValue(whole + "." + fraction + "");
      { ValueOf8080(); ValueOfOneDigit('0'); DecimalWithPoint(whole, fraction, "", 0); }
      ScaledInteger(false, PointMantissa(whole, fraction), 0 - |fraction|);
      { PointMantissaAfter8080(whole, fraction, '0'); }
      ScaledInteger(false, 80800, -1);
      { UnshiftUndoesShift(80800, 1, 8080); }
      Some(8080);
    }
  }

  lemma PointMantissaAfter8080(whole: string, fraction: string, d: char)
    requires whole == "8080" && fraction == [d] && DigitIn(d, 10).Some?
    ensures PointMantissa(whole, fraction) == 80800 + DigitIn(d, 10).value
  {
    ValueOf8080();
    ValueOfOneDigit(d);
    assert Shift(8080, 1) == 80800;
  }

  /**
   * An unsigned decimal numeral with a point is its digits, read as one
   * integer, scaled by its exponent less the number of fraction digits.
   */
  lemma DecimalWithPoint(whole: string, fraction: string, exponent: string, e: int)
    requires whole != [] && AllDigitsIn(whole, 10) && AllDigitsIn(fraction, 10)
    requires ExponentOf(exponent) == Some(e)
    ensures NumeralValue(whole + "." + fraction + exponent)
         == ScaledInteger(false, PointMantissa(whole, fraction), e - |fraction|)
  {
    PointStartsPlain(whole, fraction, exponent);
    NumeralValueUnsigned(whole + "." + fraction + exponent);
    SignedWithPoint(false, whole, fraction, exponent, e);
  }

  /** A decimal numeral with a point and the given sign. */
  lemma SignedWithPoint(negative: bool, whole: string, fraction: string, exponent: string, e: int)
    requires AllDigitsIn(whole, 10) && AllDigitsIn(fraction, 10) && |whole| + |fraction| > 0
    requires ExponentOf(exponent) == Some(e)
    ensures SignedNumeral(negative, whole + "." + fraction + exponent)
         == ScaledInteger(negative, PointMantissa(whole, fraction), e - |fraction|)
  {
    calc {
      SignedNumeral(negative, whole + "." + fraction + exponent);
      { SignedNumeralUnfold(negative, whole + "." + fraction + exponent); }
      ScaledNumeral(negative, UnsignedNumeral(whole + "." + fraction + exponent));
      { UnsignedNumeralWithPoint(whole, fraction, exponent, e); }
      ScaledNumeral(negative, Some(Numeral(PointMantissa(whole, fraction), |fraction|, e)));
      { ScaledNumeralOfParts(negative, PointMantissa(whole, fraction), |fraction|, e); }
      ScaledInteger(negative, PointMantissa(whole, fraction), e - |fraction|);
    }
  }

  lemma ScaledNumeralOfParts(negative: bool, mantissa: nat, fractionLength: nat, exponent: int)
    ensures ScaledNumeral(negative, Some(Numeral(mantissa, fractionLength, exponent)))
         == ScaledInteger(negative, mantissa, exponent - fractionLength)
  {
  }

  lemma SignedNumeralUnfold(negative: bool, u: string)
    ensures SignedNumeral(negative, u) == ScaledNumeral(negative, UnsignedNumeral(u))
  {
  }

  lemma PointStartsPlain(whole: string, fraction: string, exponent: string)
    requires whole != [] && AllDigitsIn(whole, 10)
    ensures PlainStart(whole + "." + fraction + exponent)
  {
    PointRegroups(whole, fraction, exponent);
    DigitsStartPlain(whole, "." + (fraction + exponent));
  }

  lemma EmptyEnd(t: string)
    ensures t + "" == t
  {
  }

  /** An exponent: `Number("8.08e3")` is 8080. */
  lemma PortWithExponent(whole: string, fraction: string, exponent: string, s: string)
    requires whole == "8" && fraction == "08" && exponent == "e3" && s == whole + "." + fraction + exponent
    ensures NumberOf(Some(s)) == Some(8080)
  {
    ExponentValue8080(whole, fraction, exponent, s);
    assert s[0] == '8' && s[|s| - 1] == '3';
    NumberOfDigitEnds(s);
  }

  lemma ExponentValue8080(whole: string, fraction: string, exponent: string, s: string)
    requires whole == "8" && fraction == "08" && exponent == "e3" && s == whole + "." + fraction + exponent
    ensures NumeralValue(s) == Some(8080)
  {
    calc {
      NumeralValue(s);
      { ValueOfOneDigit('8'); ValueOf08(fraction); ExponentOfE3(exponent);
        DecimalWithPoint(whole, fraction, exponent, 3); }
      ScaledInteger(false, PointMantissa(whole, fraction), 3 - |fraction|);
      { PointMantissaOf808(whole, fraction); }
      ScaledInteger(false, 808, 1);
      { assert Shift(808, 1) == 8080; }
      Some(8080);
    }
  }

  lemma PointMantissaOf808(whole: string, fraction: string)
    requires whole == "8" && fraction == "08"
    ensures |fraction| == 2 && PointMantissa(whole, fraction) == 808
  {
    ValueOfOneDigit('8');
    ValueOf08(fraction);
    assert Shift(8, 2) == 800;
  }

  lemma ValueOf08(fraction: string)
    requires fraction == "08"
    ensures AllDigitsIn(fraction, 10) && ValueIn(fraction, 10) == 8
  {
    assert fraction == "0" + ['8'];
    ValueOfOneDigit('0');
    ValueInSnoc("0", '8', 10);
  }

  lemma ExponentOfE3(exponent: string)
    requires exponent == "e3"
    ensures ExponentOf(exponent) == Some(3)
  {
    ValueOfOneDigit('3');
    assert exponent[0] == 'e' && exponent[1..] == "3";
  }

  /** A hexadecimal integer: `Number("0x1F90")` is 8080. */
  lemma PortInHex(digits: string, s: string)
    requires digits == "1F90" && s == "0x" + digits
    ensures NumberOf(Some(s)) == Some(8080)
  {
    ValueOf1F90(digits);
    NumeralWithPrefix('x', digits);
    assert "0" + ['x'] + digits == s;
    assert s[0] == '0' && s[|s| - 1] == '0';
    NumberOfDigitEnds(s);
  }

  lemma ValueOf1F90(digits: string)
    requires digits == "1F90"
    ensures AllDigitsIn(digits, 16) && ValueIn(digits, 16) == 8080
  {
    ValueOfFourDigits('1', 'F', '9', '0', 16);
  }

  /** A non-zero fraction is no integer: `Number("8080.5")` fails `int()`. */
  lemma FractionIsNotInteger(whole: string, fraction: string, s: string)
    requires whole == "8080" && fraction == "5" && s == whole + "." + fraction
    ensures NumberOf(Some(s)) == None
  {
    FractionValue(whole, fraction, s);
    assert s[0] == '8' && s[|s| - 1] == '5';
    NumberOfDigitEnds(s);
  }

  lemma FractionValue(whole: string, fraction: string, s: string)
    requires whole == "8080" && fraction == "5" && s == whole + "." + fraction
    ensures NumeralValue(s) == None
  {
    calc {
      NumeralValue(s);
      { EmptyEnd(s); }
      NumeralValue(whole + "." + fraction + "");
      { ValueOf8080(); ValueOfOneDigit('5'); DecimalWithPoint(whole, fraction, "", 0); }
      ScaledInteger(false, PointMantissa(whole, fraction), 0 - |fraction|);
      { PointMantissaAfter8080(whole, fraction, '5'); }
      ScaledInteger(false, 80805, -1);
      None;
    }
  }

  /** A sign before a hexadecimal integer is NaN: `Number("-0x1F90")`. */
  lemma SignedHexIsNaN(digits: string, s: string)
    requires digits == "1F90" && s == "-0x" + digits
    ensures NumberOf(Some(s)) == None
  {
    SignedPrefixIsNaN('-', 'x', digits);
    MinusHexSpells(digits);
    assert s[0] == '-' && s[|s| - 1] == '0';
    NumberOfUntrimmed(s);
  }

  lemma MinusHexSpells(digits: string)
    ensures [('-')] + "0" + ['x'] + digits == "-0x" + digits
  {
    var u := [('-')] + "0" + ['x'];
    assert u == "-0x";
  }

  /** `Number("Infinity")` is infinite, which `int()` rejects. */
  lemma InfinityIsNotInteger(s: string)
    requires s == "Infinity"
    ensures NumberOf(Some(s)) == None
  {
    NumberOfTrims("", s, "");
    assert "" + s + "" == s;
    DigitRunOf("", s);
    assert s[..0] == "" && s[0..] == s;
  }

  /** The object `loadBindings` builds from the process environment. */
  function InputOf(process: ProcessEnv): (r: SchemaInput)
    ensures r.enabledFeatures == EnabledFeatures(process.appEnabledFeatures)
    ensures r.metricsPort == NumberOf(process.appMetricsPort) && r.webPort == NumberOf(process.appPort)
    ensures r.dbNamePrimary == process.appDbNamePrimary && r.dbNameData == process.appDbNameData
    ensures r.dbUri == process.appDbUri && r.env == process.appEnv && r.logLevel == process.appLogLevel
    ensures r.nodeSecretKey == process.appNodeSecretKey && r.nodePublicEndpoint == process.appNodePublicEndpoint
    ensures r.mqUri == process.appMqUri
  {
    SchemaInput(
      process.appDbNamePrimary,
      process.appDbNameData,
      process.appDbUri,
      EnabledFeatures(process.appEnabledFeatures),
      process.appEnv,
      process.appLogLevel,
      process.appNodeSecretKey,
      process.appNodePublicEndpoint,
      NumberOf(process.appMetricsPort),
      process.appMqUri,
      NumberOf(process.appPort))
  }

  /** The fields of the schema, in declaration order: the order of the issues reported. */
  datatype Field =
    | DbNamePrimary | DbNameData | DbUri | EnvField | EnabledFeaturesField | LogLevelField
    | NodeSecretKey | NodePublicEndpoint | MetricsPort | MqUri | WebPort

  const SCHEMA_FIELDS: seq<Field> :=
    [DbNamePrimary, DbNameData, DbUri, EnvField, EnabledFeaturesField, LogLevelField,
     NodeSecretKey, NodePublicEndpoint, MetricsPort, MqUri, WebPort]

  function NetworkNamed(s: string): Option<Network>
  {
    if s == "testnet" then Some(Testnet) else if s == "mainnet" then Some(Mainnet) else None
  }

  function LogLevelNamed(s: string): (r: Option<LogLevel>)
    ensures r.Some? <==> exists l :: l in LOG_LEVELS && l.Name() == s
    ensures r.Some? ==> r.value.Name() == s
  {
    assert LOG_LEVELS[0] == Debug && LOG_LEVELS[1] == Info && LOG_LEVELS[2] == Warn && LOG_LEVELS[3] == Error;
    if s == "debug" then assert Debug.Name() == s; Some(Debug)
    else if s == "info" then assert Info.Name() == s; Some(Info)
    else if s == "warn" then assert Warn.Name() == s; Some(Warn)
    else if s == "error" then assert Error.Name() == s; Some(Error)
    else None
  }

  predicate PositiveInt(n: Option<int>) { n.Some? && n.value > 0 }

  /** Whether the schema accepts the given field of the input. */
  predicate FieldOk(input: SchemaInput, f: Field, isUrl: string -> bool)
  {
    match f
    case DbNamePrimary => input.dbNamePrimary.Some? && Utf16.Length(input.dbNamePrimary.value) >= MIN_DB_NAME_LENGTH
    case DbNameData => input.dbNameData.Some? && Utf16.Length(input.dbNameData.value) >= MIN_DB_NAME_LENGTH
    case DbUri => input.dbUri.Some? && StartsWith(input.dbUri.value, DB_URI_PREFIX)
    case EnvField => input.env.Some? && NetworkNamed(input.env.value).Some?
    case EnabledFeaturesField => true
    case LogLevelField => input.logLevel.Some? && LogLevelNamed(input.logLevel.value).Some?
    case NodeSecretKey => input.nodeSecretKey.Some? && Utf16.Length(input.nodeSecretKey.value) >= PRIVATE_KEY_LENGTH
    case NodePublicEndpoint => input.nodePublicEndpoint.Some? && isUrl(input.nodePublicEndpoint.value)
    case MetricsPort => PositiveInt(input.metricsPort)
    case MqUri => true
    case WebPort => PositiveInt(input.webPort)
  }

  /** The fields among `fs` that the schema rejects, in the order of `fs`. */
  function Failing(fs: seq<Field>, input: SchemaInput, isUrl: string -> bool): (r: seq<Field>)
    ensures forall f :: f in r <==> f in fs && !FieldOk(input, f, isUrl)
    ensures |r| <= |fs|
  {
    if fs == [] then []
    else (if FieldOk(input, fs[0], isUrl) then [] else [fs[0]]) + Failing(fs[1..], input, isUrl)
  }

  lemma EveryFieldInSchema(f: Field)
    ensures f in SCHEMA_FIELDS
  {
  }

  /** The failing fields of the whole schema are exactly the rejected fields. */
  lemma FailingIsExact(input: SchemaInput, isUrl: string -> bool)
    ensures forall f :: f in Failing(SCHEMA_FIELDS, input, isUrl) <==> !FieldOk(input, f, isUrl)
  {
    forall f | true ensures f in Failing(SCHEMA_FIELDS, input, isUrl) <==> !FieldOk(input, f, isUrl) {
      EveryFieldInSchema(f);
    }
  }

  /** The configuration settled from an input every field of which is accepted. */
  function Settled(input: SchemaInput, isUrl: string -> bool): (c: EnvVars)
    requires forall f :: FieldOk(input, f, isUrl)
    ensures SatisfiesSchema(c, isUrl)
    ensures && Some(c.dbNamePrimary) == input.dbNamePrimary
            && Some(c.dbNameData) == input.dbNameData
            && Some(c.dbUri) == input.dbUri
            && Some(c.env.Name()) == input.env
            && c.enabledFeatures == input.enabledFeatures
            && Some(c.logLevel.Name()) == input.logLevel
            && Some(c.nodeSecretKey) == input.nodeSecretKey
            && Some(c.nodePublicEndpoint) == input.nodePublicEndpoint
            && Some(c.metricsPort) == input.metricsPort
            && c.mqUri == input.mqUri
            && Some(c.webPort) == input.webPort
  {
    assert FieldOk(input, DbNamePrimary, isUrl) && FieldOk(input, DbNameData, isUrl);
    assert FieldOk(input, DbUri, isUrl) && FieldOk(input, EnvField, isUrl);
    assert FieldOk(input, LogLevelField, isUrl) && FieldOk(input, NodeSecretKey, isUrl);
    assert FieldOk(input, NodePublicEndpoint, isUrl);
    assert FieldOk(input, MetricsPort, isUrl) && FieldOk(input, WebPort, isUrl);
    EnvVars(
      input.dbNamePrimary.value,
      input.dbNameData.value,
      input.dbUri.value,
      NetworkNamed(input.env.value).value,
      input.enabledFeatures,
      LogLevelNamed(input.logLevel.value).value,
      input.nodeSecretKey.value,
      input.nodePublicEndpoint.value,
      input.metricsPort.value,
      input.mqUri,
      input.webPort.value)
  }

  /**
   * `EnvVarsSchema.parse`: the settled configuration when every field is
   * accepted, otherwise the rejected fields in schema order.
   */
  function ParseEnvVars(input: SchemaInput, isUrl: string -> bool): (r: Result<EnvVars, seq<Field>>)
    ensures r.Success? <==> forall f :: FieldOk(input, f, isUrl)
    ensures r.Success? ==> SatisfiesSchema(r.value, isUrl)
    ensures r.Success? ==>
              && Some(r.value.dbNamePrimary) == input.dbNamePrimary
              && Some(r.value.dbNameData) == input.dbNameData
              && Some(r.value.dbUri) == input.dbUri
              && Some(r.value.env.Name()) == input.env
              && r.value.enabledFeatures == input.enabledFeatures
              && Some(r.value.logLevel.Name()) == input.logLevel
              && Some(r.value.nodeSecretKey) == input.nodeSecretKey
              && Some(r.value.nodePublicEndpoint) == input.nodePublicEndpoint
              && Some(r.value.metricsPort) == input.metricsPort
              && r.value.mqUri == input.mqUri
              && Some(r.value.webPort) == input.webPort
    ensures r.Failure? ==> r.error != [] && forall f :: f in r.error <==> !FieldOk(input, f, isUrl)
  {
    var issues := Failing(SCHEMA_FIELDS, input, isUrl);
    FailingIsExact(input, isUrl);
    if issues != [] then
      assert issues[0] in issues;
      Failure(issues)
    else
      Success(Settled(input, isUrl))
  }

  // ---------------------------------------------------------------------
  // Bootstrap

  /** The node's own identity: its DID and its public key. */
  datatype NodeIdentity = NodeIdentity(did: Did, publicKey: string)

  datatype Node = Node(identity: NodeIdentity, endpoint: string)

  /** The bindings every request handler sees; the accounts cache is shared. */
  class AppBindings {
    const config: EnvVars
    const accounts: Cache<Did, AccountDocument>
    const node: Node

    constructor (config: EnvVars, accounts: Cache<Did, AccountDocument>, node: Node)
      ensures this.config == config && this.accounts == accounts && this.node == node
    {
      this.config := config;
      this.accounts := accounts;
      this.node := node;
    }
  }

  /** The root account of a node: its DID, tagged root, with its public key. */
  function RootDocument(identity: NodeIdentity): (d: AccountDocument)
    ensures d.RootAccount? && d.TypeTag() == "root"
    ensures d.id == identity.did && d.publicKey == identity.publicKey
  {
    RootAccount(identity.did, identity.publicKey)
  }

  /**
   * `loadBindings`: an override is taken as it is, without validation;
   * otherwise the process environment is parsed, and a rejection fails the
   * bootstrap. The new accounts cache holds the root account and nothing
   * else, with an unbounded lifetime.
   */
  method LoadBindings(override: Option<EnvVars>, process: ProcessEnv, isUrl: string -> bool,
                      fromSecretKey: string -> NodeIdentity)
    returns (r: Result<AppBindings, seq<Field>>)
    ensures override.Some? ==> r.Success? && r.value.config == override.value
    ensures override.None? ==> (r.Success? <==> ParseEnvVars(InputOf(process), isUrl).Success?)
    ensures override.None? && r.Success? ==> r.value.config == ParseEnvVars(InputOf(process), isUrl).value
    ensures override.None? && r.Failure? ==> r.error == ParseEnvVars(InputOf(process), isUrl).error
    ensures r.Success? ==> fresh(r.value) && fresh(r.value.accounts)
    ensures r.Success? ==>
              r.value.node == Node(fromSecretKey(r.value.config.nodeSecretKey), r.value.config.nodePublicEndpoint)
    ensures r.Success? ==>
              var identity := r.value.node.identity;
              && r.value.accounts.entries == map[identity.did := Entry(RootDocument(identity), Forever)]
              && r.value.accounts.tainted == {}
              && r.value.accounts.Lookup(identity.did) == Some(RootDocument(identity))
  {
    var config: EnvVars;
    if override.Some? {
      config := override.value;
    } else {
      var parsed := ParseEnvVars(InputOf(process), isUrl);
      if parsed.Failure? {
        return Failure(parsed.error);
      }
      config := parsed.value;
    }
    var node := Node(fromSecretKey(config.nodeSecretKey), config.nodePublicEndpoint);
    var accounts := new Cache<Did, AccountDocument>();
    accounts.Set(node.identity.did, RootDocument(node.identity), Forever);
    var bindings := new AppBindings(config, accounts, node);
    r := Success(bindings);
  }
}
