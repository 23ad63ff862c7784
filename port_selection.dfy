/** Choice of the listening port at the start of the remote logger's `main`:
    the default port when the program is not given exactly one argument,
    otherwise `atoi` of that argument converted to `unsigned short`, where zero
    ends the program with exit status 1. */
module PortSelection {

  /** `unsigned short`, as 16 bits. */
  type Port = x: int | 0 <= x < 0x1_0000

  const DefaultPort: Port := 9007

  /** `INT_MAX` of a 32-bit `int`. */
  const IntMax: int := 0x7FFF_FFFF

  /** What `main` goes on to do. */
  datatype Outcome = Listen(port: Port) | Exit(status: int)

  /** `isspace` in the "C" locale. */
  predicate IsSpace(ch: char)
  {
    ch == ' ' || ch == '\t' || ch == '\n' || ch == '\U{B}' || ch == '\U{C}' || ch == '\r'
  }

  /** `isdigit`. */
  predicate IsDigit(ch: char)
  {
    '0' <= ch <= '9'
  }

  /** The value of one decimal digit. */
  function DigitValue(ch: char): nat
    requires IsDigit(ch)
  {
    ch as int - '0' as int
  }

  /** `s` without its leading white space. */
  function SkipSpace(s: string): (r: string)
    ensures r == [] || !IsSpace(r[0])
  {
    if s != [] && IsSpace(s[0]) then SkipSpace(s[1..]) else s
  }

  /** What `SkipSpace` drops is a prefix of white space, and it keeps the rest. */
  lemma {:induction false} SkipSpaceDropsSpaces(s: string)
    ensures |SkipSpace(s)| <= |s| && SkipSpace(s) == s[|s| - |SkipSpace(s)|..]
    ensures forall i :: 0 <= i < |s| - |SkipSpace(s)| ==> IsSpace(s[i])
  {
    if s != [] && IsSpace(s[0]) {
      SkipSpaceDropsSpaces(s[1..]);
      assert forall i :: 0 < i < |s| - |SkipSpace(s)| ==> s[i] == s[1..][i - 1];
    }
  }

  /** The longest prefix of `s` made of decimal digits. */
  function LeadingDigits(s: string): (r: string)
    ensures |r| <= |s| && r == s[..|r|]
    ensures forall i :: 0 <= i < |r| ==> IsDigit(r[i])
    ensures |r| == |s| || !IsDigit(s[|r|])
  {
    if s != [] && IsDigit(s[0]) then [s[0]] + LeadingDigits(s[1..]) else []
  }

  /** The number a sequence of decimal digits denotes, most significant first. */
  function DecimalValue(ds: string): nat
    requires forall i :: 0 <= i < |ds| ==> IsDigit(ds[i])
  {
    if ds == [] then 0
    else 10 * DecimalValue(ds[..|ds| - 1]) + DigitValue(ds[|ds| - 1])
  }

  /** `atoi`, as `strtol(s, NULL, 10)`: leading white space, an optional sign,
      then as many decimal digits as follow; 0 when no digit follows. The
      result is exact: values outside the range of `int` are undefined in C. */
  function Atoi(s: string): (r: int)
    ensures r != 0 ==> exists i :: 0 <= i < |s| && IsDigit(s[i])
  {
    var t := SkipSpace(s);
    SkipSpaceDropsSpaces(s);
    assert t != [] ==> t[0] == s[|s| - |t|];
    assert |t| > 1 ==> t[1] == s[|s| - |t| + 1];
    if t != [] && (t[0] == '+' || t[0] == '-') then
      var v: int := DecimalValue(LeadingDigits(t[1..]));
      if t[0] == '-' then -v else v
    else
      DecimalValue(LeadingDigits(t))
  }

  /** Conversion of an `int` to `unsigned short`: the value modulo 2^16. */
  function ToUnsignedShort(v: int): (p: Port)
    ensures exists q :: v == q * 0x1_0000 + p
  {
    assert v == (v / 0x1_0000) * 0x1_0000 + v % 0x1_0000;
    v % 0x1_0000
  }

  /** The start of `main(argc, argv)`. */
  function SelectPort(argc: int, argv: seq<string>): (r: Outcome)
    requires |argv| == argc
    ensures argc != 2 ==> r == Listen(DefaultPort)
    ensures argc == 2 ==>
              (r == Exit(1) <==> Atoi(argv[1]) % 0x1_0000 == 0) &&
              (r != Exit(1) ==> r == Listen(Atoi(argv[1]) % 0x1_0000))
    ensures r.Listen? ==> r.port != 0
  {
    if argc == 2 then
      var port := ToUnsignedShort(Atoi(argv[1]));
      if port == 0 then Exit(1) else Listen(port)
    else
      Listen(DefaultPort)
  }

  /** The decimal numeral of `n`, without leading zeros. */
  function Decimal(n: nat): (r: string)
    ensures r != [] && forall i :: 0 <= i < |r| ==> IsDigit(r[i])
  {
    var d := (n % 10 + '0' as int) as char;
    if n < 10 then [d] else Decimal(n / 10) + [d]
  }

  /** The numeral of `n` denotes `n`. */
  lemma {:induction false} DecimalValueOfDecimal(n: nat)
    ensures DecimalValue(Decimal(n)) == n
  {
    var r := Decimal(n);
    if n >= 10 {
      DecimalValueOfDecimal(n / 10);
      assert r[..|r| - 1] == Decimal(n / 10);
    }
  }

  /** Digits stop at the first non-digit. */
  lemma {:induction false} LeadingDigitsOfNumeral(ds: string, rest: string)
    requires forall i :: 0 <= i < |ds| ==> IsDigit(ds[i])
    requires rest == [] || !IsDigit(rest[0])
    ensures LeadingDigits(ds + rest) == ds
  {
    if ds != [] {
      assert (ds + rest)[1..] == ds[1..] + rest;
      LeadingDigitsOfNumeral(ds[1..], rest);
      assert ds == [ds[0]] + ds[1..];
    } else {
      assert ds + rest == rest;
    }
  }

  /** `atoi` reads back a numeral and ignores whatever follows its digits. */
  lemma AtoiOfNumeral(n: nat, rest: string)
    requires rest == [] || !IsDigit(rest[0])
    ensures Atoi(Decimal(n) + rest) == n
  {
    var digits := Decimal(n);
    LeadingDigitsOfNumeral(digits, rest);
    DecimalValueOfDecimal(n);
    assert (digits + rest)[0] == digits[0];
    AtoiUnsigned(digits + rest, n);
  }

  /** `atoi` reads back a numeral that stands alone. */
  lemma AtoiOfDecimal(n: nat)
    ensures Atoi(Decimal(n)) == n
  {
    AtoiOfNumeral(n, []);
    assert Decimal(n) + [] == Decimal(n);
  }

  /** `atoi` reads back a numeral after a sign. */
  lemma AtoiOfSignedNumeral(sign: char, n: nat, rest: string)
    requires sign == '+' || sign == '-'
    requires rest == [] || !IsDigit(rest[0])
    ensures Atoi([sign] + Decimal(n) + rest) == if sign == '-' then -(n as int) else n
  {
    var digits := Decimal(n);
    LeadingDigitsOfNumeral(digits, rest);
    DecimalValueOfDecimal(n);
    assert [sign] + digits + rest == [sign] + (digits + rest);
    AtoiSigned(sign, digits + rest, n);
  }

  /** White space in front is skipped. */
  lemma {:induction false} AtoiSkipsSpace(spaces: string, body: string)
    requires forall i :: 0 <= i < |spaces| ==> IsSpace(spaces[i])
    ensures Atoi(spaces + body) == Atoi(body)
  {
    SkipSpacePrefix(spaces, body);
  }

  /** Skipping white space in front of a string skips all of it. */
  lemma {:induction false} SkipSpacePrefix(spaces: string, body: string)
    requires forall i :: 0 <= i < |spaces| ==> IsSpace(spaces[i])
    ensures SkipSpace(spaces + body) == SkipSpace(body)
  {
    if spaces != [] {
      assert (spaces + body)[1..] == spaces[1..] + body;
      SkipSpacePrefix(spaces[1..], body);
    } else {
      assert spaces + body == body;
    }
  }

  /** Without a sign, `atoi` reads the leading digits. */
  lemma AtoiUnsigned(t: string, n: nat)
    requires t != [] && IsDigit(t[0])
    requires DecimalValue(LeadingDigits(t)) == n
    ensures Atoi(t) == n
  {
    assert SkipSpace(t) == t;
  }

  /** After a sign, `atoi` reads the digits that follow it. */
  lemma AtoiSigned(sign: char, t: string, n: nat)
    requires sign == '+' || sign == '-'
    requires DecimalValue(LeadingDigits(t)) == n
    ensures Atoi([sign] + t) == if sign == '-' then -(n as int) else n
  {
    assert SkipSpace([sign] + t) == [sign] + t;
    assert ([sign] + t)[1..] == t;
  }

  /** Without a digit after the white space and the optional sign, `atoi`
      gives 0. */
  lemma AtoiWithoutDigits(s: string)
    requires var t := SkipSpace(s);
             if t != [] && (t[0] == '+' || t[0] == '-') then |t| == 1 || !IsDigit(t[1])
             else t == [] || !IsDigit(t[0])
    ensures Atoi(s) == 0
  {
  }

  /** Given the numeral of a port from 1 to 65535, the program listens on it. */
  lemma ListenOnGivenPort(program: string, p: Port)
    requires p != 0
    ensures SelectPort(2, [program, Decimal(p)]) == Listen(p)
  {
    AtoiOfDecimal(p);
    assert p % 0x1_0000 == p;
    SelectOneArgument([program, Decimal(p)], p);
  }

  /** Within the range of `int`, a numeral wraps around modulo 65536: a
      multiple of 65536, "65536" among them, makes the program exit with
      status 1. */
  lemma PortWrapsAround(program: string, p: Port, k: nat)
    requires k * 0x1_0000 + p <= IntMax
    ensures SelectPort(2, [program, Decimal(k * 0x1_0000 + p)]) ==
              if p == 0 then Exit(1) else Listen(p)
  {
    var n := k * 0x1_0000 + p;
    AtoiOfDecimal(n);
    assert n % 0x1_0000 == p;
    SelectOneArgument([program, Decimal(n)], n);
  }

  /** With one argument, only the value `atoi` gives for it matters. */
  lemma SelectOneArgument(argv: seq<string>, v: int)
    requires |argv| == 2 && Atoi(argv[1]) == v
    ensures SelectPort(2, argv) == if v % 0x1_0000 == 0 then Exit(1) else Listen(v % 0x1_0000)
  {
  }

  /** An argument with no numeral in front, such as "abc" or "", makes the
      program exit with status 1. */
  lemma NonNumericIsError(program: string, arg: string)
    requires arg == [] || !(IsDigit(arg[0]) || IsSpace(arg[0]) || arg[0] == '+' || arg[0] == '-')
    ensures SelectPort(2, [program, arg]) == Exit(1)
  {
    assert SkipSpace(arg) == arg;
  }
}
