/**
 * Splitting a server address "host[:port]" and reading its port.
 *
 * The port text is converted as `std::stoi` converts it: `strtol` in base 10
 * (section 7.22.1.4 of ISO C11) skips leading white space, takes an optional
 * sign and the longest run of decimal digits, and ignores whatever follows;
 * `stoi` fails when no digit was read, and when the value does not fit in a
 * 32-bit `int`. There is no check that the port lies in 1..65535.
 */
module Address {
  import opened Wrappers

  const INT_MIN: int := -0x8000_0000
  const INT_MAX: int := 0x7FFF_FFFF

  /** The port used when the address names none. */
  const DEFAULT_PORT: int := 80

  /** The two exceptions `std::stoi` throws. */
  datatype StoiError = InvalidArgument | OutOfRange

  datatype Endpoint = Endpoint(host: string, port: int)

  /** White space as `isspace` sees it in the C locale. */
  predicate IsSpace(ch: char)
  {
    ch == ' ' || ch == '\t' || ch == '\n' || ch == '\U{000B}' || ch == '\U{000C}' || ch == '\r'
  }

  predicate IsDigit(ch: char) { '0' <= ch <= '9' }

  predicate AllDigits(s: string) { forall i | 0 <= i < |s| :: IsDigit(s[i]) }

  /** Every character of s is white space. */
  predicate AllSpaces(s: string)
  {
    s == [] || (IsSpace(s[0]) && AllSpaces(s[1..]))
  }

  lemma {:induction false} AllSpacesAt(s: string)
    requires forall i | 0 <= i < |s| :: IsSpace(s[i])
    ensures AllSpaces(s)
  {
    if s != [] {
      AllSpacesAt(s[1..]);
    }
  }

  /** The index of the first character at or after i that is not white space. */
  function SpacesEnd(s: string, i: nat): (k: nat)
    requires i <= |s|
    ensures i <= k <= |s|
    ensures forall j | i <= j < k :: IsSpace(s[j])
    ensures k == |s| || !IsSpace(s[k])
    decreases |s| - i
  {
    if i < |s| && IsSpace(s[i]) then SpacesEnd(s, i + 1) else i
  }

  /** The text after the leading white space. */
  function SkipSpaces(s: string): (r: string)
    ensures |r| <= |s| && r == s[|s| - |r|..]
    ensures AllSpaces(s[..|s| - |r|])
    ensures r == [] || !IsSpace(r[0])
  {
    var k := SpacesEnd(s, 0);
    AllSpacesAt(s[..k]);
    s[k..]
  }

  /** The end of the run of decimal digits in s that starts at index i. */
  function DigitsEnd(s: string, i: nat): (k: nat)
    requires i <= |s|
    ensures i <= k <= |s|
    ensures forall j | i <= j < k :: IsDigit(s[j])
    ensures k == |s| || !IsDigit(s[k])
    decreases |s| - i
  {
    if i < |s| && IsDigit(s[i]) then DigitsEnd(s, i + 1) else i
  }

  /** The length of the run of decimal digits at the front of s. */
  function DigitRun(s: string): (k: nat)
    ensures k <= |s| && AllDigits(s[..k])
    ensures k == |s| || !IsDigit(s[k])
  {
    DigitsEnd(s, 0)
  }

  /** The value of a string of decimal digits, most significant first. */
  function DigitsValue(ds: string): nat
    requires AllDigits(ds)
  {
    if ds == [] then 0
    else DigitsValue(ds[..|ds| - 1]) * 10 + (ds[|ds| - 1] as int - '0' as int)
  }

  /** `std::stoi(s)` with base 10. */
  function Stoi(s: string): (r: Result<int, StoiError>)
    ensures r.Ok? ==> INT_MIN <= r.value <= INT_MAX
  {
    var t := SkipSpaces(s);
    if t != [] && (t[0] == '-' || t[0] == '+') then Convert(t[1..], t[0] == '-')
    else Convert(t, false)
  }

  /** The digit run at the front of u, negated when a '-' preceded it, checked against the int range. */
  function Convert(u: string, negative: bool): (r: Result<int, StoiError>)
    ensures r.Ok? ==> INT_MIN <= r.value <= INT_MAX
    ensures r == Err(InvalidArgument) <==> DigitRun(u) == 0
    ensures r.Ok? && negative ==> r.value <= 0
    ensures r.Ok? && !negative ==> r.value >= 0
  {
    var k := DigitRun(u);
    if k == 0 then Err(InvalidArgument)
    else
      var magnitude: int := DigitsValue(u[..k]);
      Checked(if negative then -magnitude else magnitude)
  }

  /** A value read by `strtol`, as `stoi` passes it on: out of range unless it fits in an int. */
  function Checked(v: int): (r: Result<int, StoiError>)
    ensures r.Ok? <==> INT_MIN <= v <= INT_MAX
    ensures r.Ok? ==> r.value == v
    ensures r.Err? ==> r.error == OutOfRange
  {
    if v < INT_MIN || v > INT_MAX then Err(OutOfRange) else Ok(v)
  }

  /** The index of the first ':' in s. */
  function FirstColon(s: string): (k: nat)
    requires ':' in s
    ensures k < |s| && s[k] == ':' && ':' !in s[..k]
  {
    if s[0] == ':' then 0
    else
      var k := 1 + FirstColon(s[1..]);
      assert s[..k] == [s[0]] + s[1..][..k - 1];
      k
  }

  /** The host is a colon-free prefix of the address, all of it or followed by a ':'. */
  predicate HostBeforeColon(address: string, host: string)
  {
    && ':' !in host
    && |host| <= |address|
    && host == address[..|host|]
    && (|host| < |address| ==> address[|host|] == ':')
  }

  /**
   * Split a server address at its first ':'. Without one, the whole text is
   * the host and the port is 80; with one, the host is the text before it and
   * the port is `std::stoi` of the text after it, whose failure fails the parse.
   */
  function ParseServerAddress(address: string): (r: Result<Endpoint, StoiError>)
    ensures ':' !in address ==> r == Ok(Endpoint(address, DEFAULT_PORT))
    ensures r.Ok? ==> HostBeforeColon(address, r.value.host) && INT_MIN <= r.value.port <= INT_MAX
    ensures r.Err? ==> ':' in address
    ensures ':' in address ==> PortOf(r) == Stoi(address[FirstColon(address) + 1..])
  {
    if ':' !in address then
      assert HostBeforeColon(address, address);
      Ok(Endpoint(address, DEFAULT_PORT))
    else
      var k := FirstColon(address);
      var host := address[..k];
      assert HostBeforeColon(address, host);
      WithPort(host, address[k + 1..])
  }

  /** The port of a parse, or its error. */
  function PortOf(r: Result<Endpoint, StoiError>): Result<int, StoiError>
  {
    match r
    case Ok(ep) => Ok(ep.port)
    case Err(e) => Err(e)
  }

  /** The host joined with the port `std::stoi` reads from the text after the ':', or that conversion's error. */
  function WithPort(host: string, portText: string): (r: Result<Endpoint, StoiError>)
    ensures PortOf(r) == Stoi(portText)
    ensures r.Ok? ==> r.value.host == host
  {
    match Stoi(portText)
    case Ok(port) => Ok(Endpoint(host, port))
    case Err(e) => Err(e)
  }

  // ---------------------------------------------------------------------------
  // Decimal rendering, the inverse direction.

  function DigitChar(d: nat): char
    requires d < 10
  {
    ('0' as int + d) as char
  }

  /** The shortest decimal rendering of n. */
  function Decimal(n: nat): (s: string)
    ensures s != [] && AllDigits(s)
  {
    if n < 10 then [DigitChar(n)] else Decimal(n / 10) + [DigitChar(n % 10)]
  }

  /** How a C program prints an int: a '-' in front of a negative value. */
  function IntToString(v: int): string
  {
    if v < 0 then "-" + Decimal(-v) else Decimal(v)
  }

  lemma {:induction false} DecimalValue(n: nat)
    ensures DigitsValue(Decimal(n)) == n
  {
    if n >= 10 {
      DecimalValue(n / 10);
      var s := Decimal(n);
      assert s[..|s| - 1] == Decimal(n / 10);
    }
  }

  /** The digit run from i ends at the first non-digit at or after i. */
  lemma {:induction false} DigitsEndAt(s: string, i: nat, n: nat)
    requires i <= n <= |s|
    requires forall j | i <= j < n :: IsDigit(s[j])
    requires n == |s| || !IsDigit(s[n])
    ensures DigitsEnd(s, i) == n
    decreases n - i
  {
    if i < n {
      DigitsEndAt(s, i + 1, n);
    }
  }

  /** The white space from i ends at the first other character at or after i. */
  lemma {:induction false} SpacesEndAt(s: string, i: nat, n: nat)
    requires i <= n <= |s|
    requires forall j | i <= j < n :: IsSpace(s[j])
    requires n == |s| || !IsSpace(s[n])
    ensures SpacesEnd(s, i) == n
    decreases n - i
  {
    if i < n {
      SpacesEndAt(s, i + 1, n);
    }
  }

  /** `std::stoi` skips leading white space: any amount of it in front changes nothing. */
  lemma {:induction false} StoiSkipsSpaces(ws: string, s: string)
    requires forall i | 0 <= i < |ws| :: IsSpace(ws[i])
    ensures Stoi(ws + s) == Stoi(s)
  {
    var u := ws + s;
    var e := SpacesEnd(s, 0);
    var n := |ws| + e;
    assert forall j | 0 <= j < |ws| :: u[j] == ws[j];
    assert forall j | |ws| <= j < |u| :: u[j] == s[j - |ws|];
    SpacesEndAt(u, 0, n);
    assert u[n..] == s[e..];
  }

  lemma {:induction false} DigitRunOfDigits(ds: string, rest: string)
    requires AllDigits(ds)
    requires rest == [] || !IsDigit(rest[0])
    ensures DigitRun(ds + rest) == |ds|
  {
    var u := ds + rest;
    assert forall j | 0 <= j < |ds| :: u[j] == ds[j];
    assert |ds| < |u| ==> u[|ds|] == rest[0];
    DigitsEndAt(u, 0, |ds|);
  }

  /** Converting a text whose digit run has length k > 0, without a '-' in front. */
  lemma {:induction false} ConvertRun(u: string, k: nat)
    requires 0 < k <= |u| && DigitRun(u) == k
    ensures AllDigits(u[..k])
    ensures Convert(u, false) == Checked(DigitsValue(u[..k]))
  {
  }

  /** The same after a '-'. */
  lemma {:induction false} ConvertRunNegated(u: string, k: nat)
    requires 0 < k <= |u| && DigitRun(u) == k
    ensures AllDigits(u[..k])
    ensures Convert(u, true) == Checked(-(DigitsValue(u[..k]) as int))
  {
  }

  /** Converting a run of digits followed by text that does not start with a digit. */
  lemma {:induction false} ConvertDigits(ds: string, rest: string, negative: bool)
    requires ds != [] && AllDigits(ds)
    requires rest == [] || !IsDigit(rest[0])
    ensures Convert(ds + rest, negative) == Checked(if negative then -(DigitsValue(ds) as int) else DigitsValue(ds))
  {
    var u := ds + rest;
    DigitRunOfDigits(ds, rest);
    assert u[..|ds|] == ds;
    if negative {
      ConvertRunNegated(u, |ds|);
    } else {
      ConvertRun(u, |ds|);
    }
  }

  lemma SkipNothing(s: string)
    requires s != [] && !IsSpace(s[0])
    ensures SkipSpaces(s) == s
  {
  }

  /** `std::stoi` of a sign character, then the text after it. */
  lemma {:induction false} StoiAfterSign(c: char, u: string)
    requires c == '-' || c == '+'
    ensures Stoi([c] + u) == Convert(u, c == '-')
  {
    SkipNothing([c] + u);
    assert ([c] + u)[1..] == u;
  }

  /** `std::stoi` of text that starts with a digit. */
  lemma StoiUnsigned(u: string)
    requires u != [] && IsDigit(u[0])
    ensures Stoi(u) == Convert(u, false)
  {
    SkipNothing(u);
  }

  lemma SignInFront(ds: string, rest: string)
    ensures "-" + ds + rest == ['-'] + (ds + rest)
  {
  }

  lemma Regroup<T>(a: seq<T>, b: seq<T>, c: seq<T>)
    ensures a == [] ==> a + b + c == b + c
    ensures |a| == 1 ==> a + b + c == [a[0]] + (b + c)
  {
  }

  /** `std::stoi` of an optional sign, a run of digits, and text that does not start with a digit. */
  lemma {:induction false} StoiOfSignedDigits(sign: string, ds: string, rest: string)
    requires sign == "" || sign == "-" || sign == "+"
    requires ds != [] && AllDigits(ds)
    requires rest == [] || !IsDigit(rest[0])
    ensures Stoi(sign + ds + rest) == Checked(if sign == "-" then -(DigitsValue(ds) as int) else DigitsValue(ds))
  {
    ConvertDigits(ds, rest, sign == "-");
    Regroup(sign, ds, rest);
    if sign == "" {
      StoiUnsigned(ds + rest);
    } else {
      StoiAfterSign(sign[0], ds + rest);
    }
  }

  /** `std::stoi` of a run of digits followed by text that does not start with a digit. */
  lemma {:induction false} StoiOfDigits(ds: string, rest: string, value: nat)
    requires ds != [] && AllDigits(ds) && DigitsValue(ds) == value
    requires rest == [] || !IsDigit(rest[0])
    ensures Stoi(ds + rest) == Checked(value)
  {
    ConvertDigits(ds, rest, false);
    StoiUnsigned(ds + rest);
  }

  /** The same with a '-' in front: the value is negated before the range check. */
  lemma {:induction false} StoiOfNegatedDigits(ds: string, rest: string, value: nat)
    requires ds != [] && AllDigits(ds) && DigitsValue(ds) == value
    requires rest == [] || !IsDigit(rest[0])
    ensures Stoi("-" + ds + rest) == Checked(-(value as int))
  {
    SignInFront(ds, rest);
    StoiAfterSign('-', ds + rest);
    ConvertDigits(ds, rest, true);
  }

  /** `std::stoi` of the decimal rendering of n: n itself when it fits in an int. */
  lemma {:induction false} StoiOfDecimal(n: nat, rest: string)
    requires rest == [] || !IsDigit(rest[0])
    ensures Stoi(Decimal(n) + rest) == Checked(n)
  {
    DecimalValue(n);
    StoiOfDigits(Decimal(n), rest, n);
  }

  /** `std::stoi` of '-' and the decimal rendering of n: -n when it fits in an int. */
  lemma {:induction false} StoiOfNegatedDecimal(n: nat, rest: string)
    requires rest == [] || !IsDigit(rest[0])
    ensures Stoi("-" + Decimal(n) + rest) == Checked(-(n as int))
  {
    DecimalValue(n);
    StoiOfNegatedDigits(Decimal(n), rest, n);
  }

  /**
   * `std::stoi` reads back every int a C program prints, whatever text
   * follows the digits as long as it does not start with another digit.
   */
  lemma {:induction false} StoiReadsBack(v: int, rest: string)
    requires INT_MIN <= v <= INT_MAX
    requires rest == [] || !IsDigit(rest[0])
    ensures Stoi(IntToString(v) + rest) == Ok(v)
  {
    if v < 0 {
      StoiOfNegatedDecimal(-v, rest);
    } else {
      StoiOfDecimal(v, rest);
    }
  }

  /**
   * A decimal value beyond the 32-bit range is rejected as out of range, not
   * wrapped, whatever non-digit text follows.
   */
  lemma {:induction false} StoiRejectsLarge(n: nat, rest: string)
    requires n > INT_MAX
    requires rest == [] || !IsDigit(rest[0])
    ensures Stoi(Decimal(n) + rest) == Err(OutOfRange)
  {
    StoiOfDecimal(n, rest);
  }

  /** The same below the range: '-' and a magnitude beyond 2^31 is out of range. */
  lemma {:induction false} StoiRejectsLargeNegative(n: nat, rest: string)
    requires n > -INT_MIN
    requires rest == [] || !IsDigit(rest[0])
    ensures Stoi("-" + Decimal(n) + rest) == Err(OutOfRange)
  {
    StoiOfNegatedDecimal(n, rest);
  }

  /** Without any digit after the optional white space and sign, `std::stoi` fails with an invalid argument. */
  lemma {:induction false} StoiNeedsADigit(s: string)
    requires var t := SkipSpaces(s);
      var u := if t != [] && (t[0] == '-' || t[0] == '+') then t[1..] else t;
      u == [] || !IsDigit(u[0])
    ensures Stoi(s) == Err(InvalidArgument)
  {
  }

  /**
   * An address "host:port" written with a host free of ':' and any int port
   * (negative, zero or above 65535 included) parses back to that host and
   * port; a bare host parses to port 80.
   */
  lemma {:induction false} ParseRoundTrip(host: string, port: int)
    requires ':' !in host
    requires INT_MIN <= port <= INT_MAX
    ensures ParseServerAddress(host + ":" + IntToString(port)) == Ok(Endpoint(host, port))
    ensures ParseServerAddress(host) == Ok(Endpoint(host, DEFAULT_PORT))
  {
    var a := host + ":" + IntToString(port);
    assert a[|host|] == ':';
    assert ':' in a;
    var k := FirstColon(a);
    assert a[..|host|] == host;
    assert k == |host|;
    assert a[k + 1..] == IntToString(port) + [];
    StoiReadsBack(port, []);
  }
}
