/**
 * The identifiers the backfill reads from SQLite, Python's equality on them, and the two
 * encodings its private state file uses: resolver keys, which must agree with dictionary
 * lookup, and raw identities, which must name one stored value.
 */
module PythonValues {
  import opened Basics

  /** A Python float; Finite(0.0) is the positive zero. */
  datatype Float = Finite(value: real) | NegZero | PosInf | NegInf | NaN

  datatype PyVal =
    | PyNone
    | PyBool(truth: bool)
    | PyInt(n: int)
    | PyFloat(f: Float)
    | PyStr(s: string)
    | PyBytes(b: seq<bv8>)

  /** What a SQLite column can hold: no bool, and NaN is stored as NULL. */
  predicate FromSqlite(v: PyVal) {
    !v.PyBool? && v != PyFloat(NaN)
  }

  // --------------------------------------------------------------- equality

  datatype Number = Exact(r: real) | PlusInf | MinusInf

  function NumberOf(v: PyVal): Option<Number> {
    match v
    case PyBool(t) => Some(Exact(if t then 1.0 else 0.0))
    case PyInt(n) => Some(Exact(n as real))
    case PyFloat(Finite(r)) => Some(Exact(r))
    case PyFloat(NegZero) => Some(Exact(0.0))
    case PyFloat(PosInf) => Some(PlusInf)
    case PyFloat(NegInf) => Some(MinusInf)
    case _ => None
  }

  /** a == b in Python: numbers by value across types, NaN equal to nothing. */
  predicate PyEq(a: PyVal, b: PyVal) {
    match (a, b)
    case (PyNone, PyNone) => true
    case (PyStr(s), PyStr(t)) => s == t
    case (PyBytes(s), PyBytes(t)) => s == t
    case _ => NumberOf(a).Some? && NumberOf(a) == NumberOf(b)
  }

  // ---------------------------------------------------------------- decimals

  function DigitChar(d: nat): char
    requires d < 10
  {
    ('0' as int + d) as char
  }

  function DigitOf(c: char): Option<nat> {
    if '0' <= c <= '9' then Some(c as int - '0' as int) else None
  }

  function Digits(n: nat): (s: string)
    ensures |s| > 0 && s[0] != '-'
  {
    if n < 10 then [DigitChar(n)] else Digits(n / 10) + [DigitChar(n % 10)]
  }

  /** str(n). */
  function Decimal(n: int): string {
    if n < 0 then "-" + Digits(-n) else Digits(n)
  }

  function ParseDigits(s: string): Option<nat> {
    if s == "" then None
    else if |s| == 1 then DigitOf(s[0])
    else match (ParseDigits(s[..|s| - 1]), DigitOf(s[|s| - 1]))
      case (Some(high), Some(low)) => Some(10 * high + low)
      case _ => None
  }

  /** int(text), for the texts that Decimal writes. */
  function ParseDecimal(s: string): Option<int> {
    if |s| > 0 && s[0] == '-' then
      match ParseDigits(s[1..])
      case Some(n) => var m: int := n; Some(-m)
      case None => None
    else
      match ParseDigits(s)
      case Some(n) => var m: int := n; Some(m)
      case None => None
  }

  lemma {:induction false} DigitsRoundTrip(n: nat)
    ensures ParseDigits(Digits(n)) == Some(n)
  {
    if n >= 10 {
      DigitsRoundTrip(n / 10);
      assert Digits(n)[..|Digits(n)| - 1] == Digits(n / 10);
    }
  }

  lemma DecimalRoundTrip(n: int)
    ensures ParseDecimal(Decimal(n)) == Some(n)
  {
    DigitsRoundTrip(if n < 0 then -n else n);
    if n < 0 {
      assert Decimal(n)[1..] == Digits(-n);
    }
  }

  lemma {:induction false} DigitsShape(n: nat)
    ensures forall i :: 0 <= i < |Digits(n)| ==> '0' <= Digits(n)[i] <= '9'
    ensures Digits(n)[0] == '0' <==> n == 0
  {
    if n >= 10 { DigitsShape(n / 10); }
  }

  /** Decimal text has a sign exactly if the number is negative, and no superfluous zero. */
  lemma DecimalShape(n: int)
    ensures Decimal(n)[0] == '-' <==> n < 0
    ensures forall i :: 0 < i < |Decimal(n)| ==> '0' <= Decimal(n)[i] <= '9'
    ensures Decimal(n)[if n < 0 then 1 else 0] == '0' <==> n == 0
  {
    DigitsShape(if n < 0 then -n else n);
    if n < 0 { assert forall i :: 0 < i < |Decimal(n)| ==> Decimal(n)[i] == Digits(-n)[i - 1]; }
  }

  // ---------------------------------------------------------------- encodings

  datatype Tag = TNull | TBlob | TText | TInteger | TRealInf | TReal

  /** Encoded bytes; UTF-8 text and float.hex are taken as injective and readable back. */
  datatype Encoded = Nothing | Bytes(b: seq<bv8>) | Utf8(s: string) | Ascii(a: string) | Hex(f: Float)

  datatype Code = Code(tag: Tag, value: Encoded)

  /** float.is_integer. */
  predicate IsInteger(r: real) {
    r == r.Floor as real
  }

  function ResolverKey(v: PyVal): Code {
    match v
    case PyNone => Code(TNull, Nothing)
    case PyBytes(b) => Code(TBlob, Bytes(b))
    case PyStr(s) => Code(TText, Utf8(s))
    case PyBool(t) => Code(TInteger, Ascii(Decimal(if t then 1 else 0)))
    case PyInt(n) => Code(TInteger, Ascii(Decimal(n)))
    case PyFloat(PosInf) => Code(TRealInf, Ascii("+"))
    case PyFloat(NegInf) => Code(TRealInf, Ascii("-"))
    case PyFloat(NegZero) => Code(TInteger, Ascii(Decimal(0)))
    case PyFloat(Finite(r)) =>
      if IsInteger(r) then Code(TInteger, Ascii(Decimal(r.Floor))) else Code(TReal, Hex(v.f))
    case PyFloat(NaN) => Code(TReal, Hex(NaN))
  }

  function RawIdentity(v: PyVal): Code {
    match v
    case PyNone => Code(TNull, Nothing)
    case PyBytes(b) => Code(TBlob, Bytes(b))
    case PyStr(s) => Code(TText, Utf8(s))
    case PyBool(t) => Code(TInteger, Ascii(if t then "True" else "False"))
    case PyInt(n) => Code(TInteger, Ascii(Decimal(n)))
    case PyFloat(PosInf) => Code(TRealInf, Ascii("+"))
    case PyFloat(NegInf) => Code(TRealInf, Ascii("-"))
    case PyFloat(f) => Code(TReal, Hex(f))
  }

  /** None where the code raises. */
  function RawValue(c: Code): Option<PyVal> {
    match c
    case Code(TNull, _) => Some(PyNone)
    case Code(TBlob, Bytes(b)) => Some(PyBytes(b))
    case Code(TText, Utf8(s)) => Some(PyStr(s))
    case Code(TInteger, Ascii(a)) => if ParseDecimal(a).Some? then Some(PyInt(ParseDecimal(a).value)) else None
    case Code(TRealInf, v) => Some(PyFloat(if v == Ascii("+") then PosInf else NegInf))
    case Code(TReal, Hex(f)) => Some(PyFloat(f))
    case _ => None
  }

  /** The whole number a value is equal to, if any: exactly those share the integer keys. */
  function WholeNumber(v: PyVal): Option<int> {
    match NumberOf(v)
    case Some(Exact(r)) => if IsInteger(r) then Some(r.Floor) else None
    case _ => None
  }

  lemma IntegerKeys(v: PyVal)
    ensures WholeNumber(v).Some? <==> ResolverKey(v).tag == TInteger
    ensures WholeNumber(v).Some? ==> ResolverKey(v) == Code(TInteger, Ascii(Decimal(WholeNumber(v).value)))
    ensures WholeNumber(v).Some? ==> NumberOf(v) == Some(Exact(WholeNumber(v).value as real))
  {
  }

  /** The codes of both encodings, kind by kind; they differ only for numbers that are whole. */
  lemma CodesByKind(v: PyVal)
    ensures v.PyNone? ==> RawIdentity(v) == ResolverKey(v) == Code(TNull, Nothing)
    ensures v.PyBytes? ==> RawIdentity(v) == ResolverKey(v) == Code(TBlob, Bytes(v.b))
    ensures v.PyStr? ==> RawIdentity(v) == ResolverKey(v) == Code(TText, Utf8(v.s))
    ensures v == PyFloat(PosInf) ==> RawIdentity(v) == ResolverKey(v) == Code(TRealInf, Ascii("+"))
    ensures v == PyFloat(NegInf) ==> RawIdentity(v) == ResolverKey(v) == Code(TRealInf, Ascii("-"))
    ensures v.PyInt? ==> RawIdentity(v) == ResolverKey(v) == Code(TInteger, Ascii(Decimal(v.n)))
    ensures v.PyFloat? && v.f != PosInf && v.f != NegInf ==>
      RawIdentity(v) == Code(TReal, Hex(v.f)) && (ResolverKey(v) == RawIdentity(v) <==> WholeNumber(v).None?)
    ensures v == PyBool(true) ==> ResolverKey(v) == Code(TInteger, Ascii("1")) && RawIdentity(v) == Code(TInteger, Ascii("True"))
    ensures v == PyBool(false) ==> ResolverKey(v) == Code(TInteger, Ascii("0")) && RawIdentity(v) == Code(TInteger, Ascii("False"))
  {
    assert Digits(0) == "0" && Digits(1) == "1";
  }

  /** Resolver keys agree with dictionary equality; only NaN, which SQLite never returns, is merged. */
  lemma ResolverKeyIsEquality(a: PyVal, b: PyVal)
    ensures ResolverKey(a) == ResolverKey(b) <==> PyEq(a, b) || a == b == PyFloat(NaN)
  {
    IntegerKeys(a);
    IntegerKeys(b);
    if WholeNumber(a).Some? && WholeNumber(b).Some? {
      DecimalRoundTrip(WholeNumber(a).value);
      DecimalRoundTrip(WholeNumber(b).value);
    }
  }

  /**
   * A value is read back from its raw identity, sign of zero and number type included. Only a
   * bool is not: str(True) is no integer text, but SQLite returns none.
   */
  lemma RawRoundTrip(v: PyVal)
    ensures RawValue(RawIdentity(v)) == Some(v) <==> !v.PyBool?
  {
    if v.PyInt? { DecimalRoundTrip(v.n); }
  }

  /** So the raw identity tells stored values apart, and never joins what the resolver separates. */
  lemma RawIdentityIsExact(a: PyVal, b: PyVal)
    requires FromSqlite(a) && FromSqlite(b)
    ensures RawIdentity(a) == RawIdentity(b) <==> a == b
    ensures RawIdentity(a) == RawIdentity(b) ==> ResolverKey(a) == ResolverKey(b)
  {
    RawRoundTrip(a);
    RawRoundTrip(b);
  }

  /** Dictionary equality is coarser: 1 and 1.0 are one key and two identities. */
  lemma EqualButNotIdentical()
    ensures PyEq(PyInt(1), PyFloat(Finite(1.0))) && RawIdentity(PyInt(1)) != RawIdentity(PyFloat(Finite(1.0)))
  {
  }
}
