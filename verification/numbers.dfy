/**
 * Integer text conversions of Go's strconv package as the model uses them
 * (ParseInt with base 0 or 10, Atoi, AppendInt in base 10), and the number
 * node that node.go:221-292 and lib/node.go:264-335 define identically.
 */
module Numbers {
  import opened Wrappers
  import opened Tokens
  import opened TokenStream
  import opened Values

  const MinInt64: int := -0x8000_0000_0000_0000
  const MaxInt64: int := 0x7fff_ffff_ffff_ffff

  predicate InInt64(i: int)
  {
    MinInt64 <= i <= MaxInt64
  }

  /** A rune strconv accepts as a digit in some base up to 36. */
  predicate IsAlnum(c: char)
  {
    '0' <= c <= '9' || 'a' <= c <= 'z' || 'A' <= c <= 'Z'
  }

  function DigitOf(c: char): (d: nat)
    requires IsAlnum(c)
    ensures d < 36
  {
    if '0' <= c <= '9' then (c - '0') as nat
    else if 'a' <= c <= 'z' then (c - 'a') as nat + 10
    else (c - 'A') as nat + 10
  }

  /** Every rune of `s` is a digit of `base`. */
  predicate AllDigits(s: string, base: nat)
  {
    forall i :: 0 <= i < |s| ==> IsAlnum(s[i]) && DigitOf(s[i]) < base
  }

  /** The value of a digit string, most significant digit first. */
  function DigitsValue(s: string, base: nat): nat
    requires AllDigits(s, base)
  {
    if s == [] then 0
    else DigitsValue(s[..|s| - 1], base) * base + DigitOf(s[|s| - 1])
  }

  /** strconv.ParseUint without its 64-bit range check (ParseInt applies the
      narrower one).  Base 0 takes the base from the prefix: 0x or 0X is
      hexadecimal, another leading 0 octal, anything else decimal. */
  function ParseUnsigned(s: string, base: nat): (r: Option<nat>)
    requires base == 0 || base == 10
  {
    if s == [] then None
    else
      var (digits, b) :=
        if base == 10 then (s, 10)
        else if s[0] == '0' && |s| > 1 && (s[1] == 'x' || s[1] == 'X') then (s[2..], 16)
        else if s[0] == '0' then (s, 8)
        else (s, 10);
      if digits != [] && AllDigits(digits, b) then Some(DigitsValue(digits, b)) else None
  }

  /** strconv.ParseInt(s, base, 64): an optional sign, then ParseUint, then
      the signed 64-bit range; any failure is None. */
  function ParseInt(s: string, base: nat): (r: Option<int>)
    requires base == 0 || base == 10
    ensures r.Some? ==> InInt64(r.value)
    ensures r.Some? ==> s != []
  {
    if s == [] then None
    else
      var neg := s[0] == '-';
      var rest := if s[0] == '+' || s[0] == '-' then s[1..] else s;
      match ParseUnsigned(rest, base)
      case None => None
      case Some(u) =>
        var v: int := if neg then -(u as int) else u;
        if InInt64(v) then Some(v) else None
  }

  /** strconv.Atoi on a 64-bit platform. */
  function Atoi(s: string): Option<int>
  {
    ParseInt(s, 10)
  }

  function DigitChar(d: nat): (c: char)
    requires d < 10
    ensures IsAlnum(c) && DigitOf(c) == d && c != '-' && c != '+'
  {
    ['0', '1', '2', '3', '4', '5', '6', '7', '8', '9'][d]
  }

  /** Base-10 digits of a natural number, no leading zeros. */
  function FormatNat(n: nat): (r: string)
    decreases n
  {
    if n < 10 then [DigitChar(n)] else FormatNat(n / 10) + [DigitChar(n % 10)]
  }

  /** strconv.AppendInt(_, i, 10): a minus sign only when negative. */
  function FormatInt(i: int): string
  {
    if i < 0 then "-" + FormatNat(-i) else FormatNat(i)
  }

  lemma {:induction false} FormatNatDigits(n: nat)
    ensures FormatNat(n) != []
    ensures AllDigits(FormatNat(n), 10) && DigitsValue(FormatNat(n), 10) == n
    ensures FormatNat(n)[0] != '-' && FormatNat(n)[0] != '+'
    ensures n > 0 ==> FormatNat(n)[0] != '0'
    ensures n == 0 ==> FormatNat(n) == "0"
    decreases n
  {
    if n >= 10 {
      FormatNatDigits(n / 10);
      var s := FormatNat(n);
      assert s[..|s| - 1] == FormatNat(n / 10);
    }
  }

  lemma ParseFormatNat(n: nat)
    ensures ParseUnsigned(FormatNat(n), 0) == Some(n)
    ensures ParseUnsigned(FormatNat(n), 10) == Some(n)
  {
    FormatNatDigits(n);
    var s := FormatNat(n);
    if n == 0 {
      assert AllDigits(s, 8) && DigitsValue(s, 8) == 0;
    }
  }

  /** The text AppendInt writes parses back to the same integer, whether
      read with the base taken from the prefix (as number literals are) or
      in base 10 (as path segments are). */
  lemma FormatIntRoundTrip(i: int)
    requires InInt64(i)
    ensures ParseInt(FormatInt(i), 0) == Some(i)
    ensures Atoi(FormatInt(i)) == Some(i)
  {
    if i < 0 {
      NegativeRoundTrip(i, 0);
      NegativeRoundTrip(i, 10);
    } else {
      NonNegativeRoundTrip(i, 0);
      NonNegativeRoundTrip(i, 10);
    }
  }

  lemma NegativeRoundTrip(i: int, base: nat)
    requires MinInt64 <= i < 0 && (base == 0 || base == 10)
    ensures ParseInt(FormatInt(i), base) == Some(i)
  {
    var n: nat := -i;
    ParseFormatNat(n);
    ParseMinus(FormatNat(n), base, n);
  }

  /** A minus sign negates the number after it. */
  lemma ParseMinus(t: string, base: nat, n: nat)
    requires base == 0 || base == 10
    requires ParseUnsigned(t, base) == Some(n) && InInt64(-(n as int))
    ensures ParseInt("-" + t, base) == Some(-(n as int))
  {
    var s := "-" + t;
    assert s[0] == '-' && s[1..] == t;
  }

  lemma NonNegativeRoundTrip(i: nat, base: nat)
    requires i <= MaxInt64 && (base == 0 || base == 10)
    ensures ParseInt(FormatInt(i), base) == Some(i)
  {
    FormatNatDigits(i);
    ParseFormatNat(i);
    assert FormatInt(i) == FormatNat(i);
  }

  /** The two functions strconv and fmt provide that the model does not
      define: ParseFloat(s, 64) and Sscan into a complex128. */
  datatype Numerics = Numerics(parseFloat: string -> Option<bv64>, scanComplex: string -> Option<Complex>)

  /** Tag of a number node. */
  datatype NumType = NumInt | NumFloat | NumComplex

  /** numberNode: a tag and one field per number type; the fields that the
      tag does not select keep Go's zero values. */
  datatype NumberNode = NumberNode(t: NumType, c: Complex, i: int, f: bv64)

  const ZeroComplex := Complex(0, 0)

  datatype NumberError =
    | NotReal(saw: Kind)        // "unexpected %s token while parsing number"
    | BadComplex(text: string)  // "ungood imaginary number format %s"
    | Broken(token: Token)      // "this token broke the number parser"

  /** numberNode.parse: a real-number token, merged with an immediately
      following imaginary-number token into a complex value; otherwise an
      integer in the base its prefix selects, otherwise a float. */
  function ParseNumberNode(num: Numerics, s: Stream): (r: Result<(NumberNode, Stream), NumberError>)
    ensures r.Err? && r.error.NotReal? <==> Next(s).0.kind != RealNumber
    ensures r.Ok? ==> Size(r.value.1) < Size(s)
    ensures r.Ok? && r.value.0.t == NumInt ==>
      ParseInt(Next(s).0.text, 0) == Some(r.value.0.i)
    ensures r.Ok? && r.value.0.t == NumFloat ==>
      ParseInt(Next(s).0.text, 0) == None && num.parseFloat(Next(s).0.text) == Some(r.value.0.f)
    ensures r.Ok? && r.value.0.t == NumComplex ==>
      Next(Next(s).1).0.kind == ImaginaryNumber
    ensures NoCommentPushed(s.backup) && r.Ok? ==> NoCommentPushed(r.value.1.backup)
  {
    var (t, s1) := Next(s);
    if t.kind != RealNumber then Err(NotReal(t.kind))
    else
      var (p, s2) := Peek(s1);
      if p.kind == ImaginaryNumber then
        var (t2, s3) := Next(s2);
        var text := t.text + t2.text;
        match num.scanComplex(text)
        case None => Err(BadComplex(text))
        case Some(c) => Ok((NumberNode(NumComplex, c, 0, 0), s3))
      else
        match ParseInt(t.text, 0)
        case Some(i) => Ok((NumberNode(NumInt, ZeroComplex, i, 0), s2))
        case None =>
          match num.parseFloat(t.text)
          case Some(f) => Ok((NumberNode(NumFloat, ZeroComplex, 0, f), s2))
          case None => Err(Broken(t))
  }

  /** numberNode.eval: the field the tag selects. */
  function EvalNumber(n: NumberNode): (v: Value)
    ensures v.Int? <==> n.t == NumInt
    ensures v.Float? <==> n.t == NumFloat
    ensures v.Cplx? <==> n.t == NumComplex
  {
    match n.t
    case NumInt => Int(n.i)
    case NumFloat => Float(n.f)
    case NumComplex => Cplx(n.c)
  }
}
