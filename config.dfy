/** Server configuration and its validation (cmd/httpd/config.go). */
module Config {
  import opened Wrappers
  import opened Decimal

  datatype Config = Config(addr: string, dsn: string)

  const DefaultAddr := ":8080"
  const MaxPort := 65535

  /** The ways fmt.Sscanf(text, "%d", &port) can fail. */
  datatype ScanError = UnexpectedNewline | UnexpectedEOF | ExpectedInteger | ValueOutOfRange

  datatype AddrError = MissingColon | BadPort | PortOutOfRange(port: int)

  datatype ConfigError = BadAddr(cause: AddrError) | MissingDSN

  /** strings.Index(s, string(c)): the first position of c, if any. */
  function IndexOf(s: string, c: char): (r: Option<nat>)
    ensures r.None? <==> c !in s
    ensures r.Some? ==> r.value < |s| && s[r.value] == c && c !in s[..r.value]
    decreases |s|
  {
    if s == [] then None
    else if s[0] == c then Some(0)
    else match IndexOf(s[1..], c)
      case None => None
      case Some(i) => Some(i + 1)
  }

  /** The white space fmt's scanner skips (unicode.IsSpace's set, kept as a
      table in package fmt). */
  predicate IsSpace(c: char) {
    || '\U{0009}' <= c <= '\U{000d}'
    || c == ' ' || c == '\U{0085}' || c == '\U{00a0}' || c == '\U{1680}'
    || '\U{2000}' <= c <= '\U{200a}'
    || c == '\U{2028}' || c == '\U{2029}' || c == '\U{202f}' || c == '\U{205f}' || c == '\U{3000}'
  }

  /** The scanner's SkipSpace in Sscanf mode: leading spaces go, but a
      newline among them is an error. (A "\r\n" fails on its '\n' as well.) */
  function SkipSpace(s: string): (r: Option<string>)
    ensures r.Some? ==> |r.value| <= |s|
    ensures r.Some? && r.value != [] ==> !IsSpace(r.value[0])
    decreases |s|
  {
    if s == [] then Some(s)
    else if s[0] == '\n' then None
    else if IsSpace(s[0]) then SkipSpace(s[1..])
    else Some(s)
  }

  /** The longest prefix of decimal digits. */
  function LeadingDigits(s: string): (ds: string)
    ensures AllDigits(ds)
    decreases |s|
  {
    if s != [] && IsDigit(s[0]) then [s[0]] + LeadingDigits(s[1..]) else []
  }

  /** SkipSpace drops a run of spaces from the front and stops at the first
      character that is not one; it fails exactly when a newline precedes that
      character. */
  lemma {:induction false} SkipSpaceSkips(s: string)
    ensures SkipSpace(s).Some? ==>
      var r := SkipSpace(s).value;
      |r| <= |s| && r == s[|s| - |r|..] && (r != [] ==> !IsSpace(r[0]))
      && forall i :: 0 <= i < |s| - |r| ==> IsSpace(s[i]) && s[i] != '\n'
    ensures SkipSpace(s).None? <==>
      exists i :: 0 <= i < |s| && s[i] == '\n' && forall j :: 0 <= j < i ==> IsSpace(s[j])
    decreases |s|
  {
    if s != [] && s[0] != '\n' && IsSpace(s[0]) {
      SkipSpaceSkips(s[1..]);
      if SkipSpace(s).None? {
        var i :| 0 <= i < |s[1..]| && s[1..][i] == '\n' && forall j :: 0 <= j < i ==> IsSpace(s[1..][j]);
        assert s[i + 1] == '\n';
      }
    }
  }

  /** LeadingDigits is the longest prefix made of digits. */
  lemma {:induction false} LeadingDigitsLongest(s: string)
    ensures var ds := LeadingDigits(s);
      |ds| <= |s| && ds == s[..|ds|] && (|ds| < |s| ==> !IsDigit(s[|ds|]))
    decreases |s|
  {
    if s != [] && IsDigit(s[0]) {
      LeadingDigitsLongest(s[1..]);
    }
  }

  /** fmt.Sscanf(text, "%d", &v) into an int: skip spaces, take an optional
      sign and then as many decimal digits as follow (at least one), and
      require the value to fit in 64 bits. Text after the digits is ignored. */
  function ScanDecimal(text: string): (r: Result<int, ScanError>)
    ensures r.Success? ==> MinInt64 <= r.value <= MaxInt64
    ensures r == Failure(UnexpectedNewline) <==> SkipSpace(text).None?
  {
    match SkipSpace(text)
    case None => Failure(UnexpectedNewline)
    case Some(t) => ScanSigned(t)
  }

  /** The optional sign and the digits, once the spaces are gone. */
  function ScanSigned(t: string): (r: Result<int, ScanError>)
    ensures r.Success? ==> MinInt64 <= r.value <= MaxInt64
    ensures r.Success? ==> t != [] && (r.value < 0 ==> t[0] == '-')
    ensures r != Failure(UnexpectedNewline)
  {
    if t == [] then Failure(UnexpectedEOF)
    else if t[0] == '-' then ScanDigits(t[1..], true)
    else if t[0] == '+' then ScanDigits(t[1..], false)
    else ScanDigits(t, false)
  }

  function ScanDigits(rest: string, negative: bool): (r: Result<int, ScanError>)
    ensures r.Success? ==> MinInt64 <= r.value <= MaxInt64
    ensures r.Success? ==> rest != [] && IsDigit(rest[0]) && (r.value < 0 ==> negative) && (r.value > 0 ==> !negative)
    ensures r == Failure(ExpectedInteger) <==> rest != [] && !IsDigit(rest[0])
    ensures r != Failure(UnexpectedNewline)
  {
    var ds := LeadingDigits(rest);
    if rest == [] then Failure(UnexpectedEOF)
    else if ds == [] then Failure(ExpectedInteger)
    else
      var v := if negative then -(DigitsValue(ds) as int) else DigitsValue(ds);
      if v < MinInt64 || v > MaxInt64 then Failure(ValueOutOfRange) else Success(v)
  }

  /** validAddr: the port is what follows the first ':', read as by %d, and
      must lie in [0, MaxPort]. What precedes the ':' is not looked at. */
  function ValidAddr(addr: string): (err: Option<AddrError>)
    ensures err == Some(MissingColon) <==> ':' !in addr
    ensures err.None? ==> ':' in addr
  {
    match IndexOf(addr, ':')
    case None => Some(MissingColon)
    case Some(i) => CheckPort(addr[i + 1..])
  }

  /** The port half of validAddr. */
  function CheckPort(text: string): (err: Option<AddrError>)
    ensures err.None? <==> ScanDecimal(text).Success? && 0 <= ScanDecimal(text).value <= MaxPort
    ensures err == Some(BadPort) <==> ScanDecimal(text).Failure?
    ensures err != Some(MissingColon)
  {
    match ScanDecimal(text)
    case Failure(_) => Some(BadPort)
    case Success(port) =>
      if port < 0 || port > MaxPort then Some(PortOutOfRange(port)) else None
  }

  /** Config.Validate: the address first, then the DSN. */
  function Validate(c: Config): (err: Option<ConfigError>)
    ensures err.None? <==> ValidAddr(c.addr).None? && c.dsn != ""
    ensures ValidAddr(c.addr).Some? ==> err == Some(BadAddr(ValidAddr(c.addr).value))
    ensures ValidAddr(c.addr).None? && c.dsn == "" ==> err == Some(MissingDSN)
  {
    match ValidAddr(c.addr)
    case Some(e) => Some(BadAddr(e))
    case None => if c.dsn == "" then Some(MissingDSN) else None
  }

  /** Only the text after the first ':' decides: the host part is ignored. */
  lemma {:induction false} OnlyPortMatters(host: string, rest: string)
    requires ':' !in host
    ensures IndexOf(host + ":" + rest, ':') == Some(|host|)
    ensures ValidAddr(host + ":" + rest) == CheckPort(rest)
  {
    var a := host + ":" + rest;
    assert a[|host|] == ':';
    assert a[..|host|] == host;
    assert a[|host| + 1..] == rest;
  }

  /** Text after the ':' that does not start, past spaces, with an optionally
      signed digit is a bad port. */
  lemma NotANumber(addr: string, i: nat)
    requires IndexOf(addr, ':') == Some(i)
    requires ScanDecimal(addr[i + 1..]).Failure?
    ensures ValidAddr(addr) == Some(BadPort)
  {
  }

  /** Once %d has read a value, only its range decides, whatever host
      precedes the ':'. */
  lemma PortChecked(host: string, text: string, port: int)
    requires ':' !in host && ScanDecimal(text) == Success(port)
    ensures ValidAddr(host + ":" + text)
         == if port < 0 || port > MaxPort then Some(PortOutOfRange(port)) else None
  {
    OnlyPortMatters(host, text);
  }

  /** A number in range is accepted, whatever host precedes it. */
  lemma PortInRangeAccepted(host: string, port: nat)
    requires ':' !in host && port <= MaxPort
    ensures ValidAddr(host + ":" + FormatNat(port)) == None
  {
    ScanFormatted(port);
    PortChecked(host, FormatNat(port), port);
  }

  /** A number out of range that fits in 64 bits is rejected with its value. */
  lemma PortOutOfRangeRejected(host: string, port: nat)
    requires ':' !in host && MaxPort < port <= MaxInt64
    ensures ValidAddr(host + ":" + FormatNat(port)) == Some(PortOutOfRange(port))
  {
    ScanFormatted(port);
    PortChecked(host, FormatNat(port), port);
  }

  /** Spaces %d skips in Sscanf mode: white space other than a newline. */
  predicate Blanks(ws: string) {
    forall i :: 0 <= i < |ws| ==> IsSpace(ws[i]) && ws[i] != '\n'
  }

  /** The sign %d accepts before the digits: none, '+' or '-'. */
  predicate IsSign(sign: string) {
    sign == "" || sign == "+" || sign == "-"
  }

  /** What may follow the digits of a number: nothing, or a non-digit. */
  predicate EndsNumber(rest: string) {
    rest == [] || !IsDigit(rest[0])
  }

  /** The value of digits ds after an optional sign. */
  function SignedValue(sign: string, ds: string): int
    requires AllDigits(ds)
  {
    if sign == "-" then -(DigitsValue(ds) as int) else DigitsValue(ds)
  }

  /** The digits taken from ds + rest are exactly ds when rest does not
      start with a digit. */
  lemma {:induction false} LeadingDigitsSplit(ds: string, rest: string)
    requires AllDigits(ds) && EndsNumber(rest)
    ensures LeadingDigits(ds + rest) == ds
    decreases |ds|
  {
    if ds == [] {
      assert ds + rest == rest;
    } else {
      assert (ds + rest)[0] == ds[0];
      assert (ds + rest)[1..] == ds[1..] + rest;
      LeadingDigitsSplit(ds[1..], rest);
    }
  }

  /** Leading spaces without a newline are skipped whatever follows them. */
  lemma {:induction false} SkipSpacePrefix(ws: string, t: string)
    requires Blanks(ws)
    ensures SkipSpace(ws + t) == SkipSpace(t)
    decreases |ws|
  {
    if ws == [] {
      assert ws + t == t;
    } else {
      assert (ws + t)[0] == ws[0];
      assert (ws + t)[1..] == ws[1..] + t;
      SkipSpacePrefix(ws[1..], t);
    }
  }

  /** What SkipSpace drops, when it succeeds, is a run of spaces without a
      newline in front of what it keeps. */
  lemma {:induction false} SkippedSpace(s: string) returns (ws: string)
    requires SkipSpace(s).Some?
    ensures Blanks(ws) && s == ws + SkipSpace(s).value
    decreases |s|
  {
    if s != [] && IsSpace(s[0]) {
      var ws' := SkippedSpace(s[1..]);
      ws := [s[0]] + ws';
      assert s == [s[0]] + s[1..];
    } else {
      ws := [];
    }
  }

  lemma Regroup(ws: string, sign: string, ds: string, rest: string)
    ensures ws + (sign + ds + rest) == ws + sign + ds + rest
  {
  }

  /** Digits followed by anything but a digit are read as their value, with
      the sign already taken, or rejected when it does not fit in 64 bits. */
  lemma ScanDigitsReads(ds: string, rest: string, negative: bool)
    requires ds != [] && AllDigits(ds) && EndsNumber(rest)
    ensures var v := if negative then -(DigitsValue(ds) as int) else DigitsValue(ds) as int;
      ScanDigits(ds + rest, negative)
        == if MinInt64 <= v <= MaxInt64 then Success(v) else Failure(ValueOutOfRange)
  {
    var s := ds + rest;
    LeadingDigitsSplit(ds, rest);
    assert s != [] && LeadingDigits(s) != [];
    var v := if negative then -(DigitsValue(ds) as int) else DigitsValue(ds) as int;
    assert ScanDigits(s, negative)
        == if v < MinInt64 || v > MaxInt64 then Failure(ValueOutOfRange) else Success(v);
  }

  /** An optional sign, digits and trailing text are read as the signed
      value of the digits; '+' reads like no sign at all. */
  lemma ScanSignedReads(sign: string, ds: string, rest: string)
    requires IsSign(sign) && ds != [] && AllDigits(ds) && EndsNumber(rest)
    ensures var v := SignedValue(sign, ds);
      ScanSigned(sign + ds + rest)
        == if MinInt64 <= v <= MaxInt64 then Success(v) else Failure(ValueOutOfRange)
  {
    var t := sign + ds + rest;
    assert t[|sign|..] == ds + rest;
    if sign == "" {
      assert t[0] == ds[0];
    }
    ScanDigitsReads(ds, rest, sign == "-");
  }

  /** %d on spaces, an optional sign, digits and any text not starting with a
      digit reads the signed value, or fails when it does not fit in 64 bits. */
  lemma ScanDecimalReads(ws: string, sign: string, ds: string, rest: string)
    requires Blanks(ws) && IsSign(sign) && ds != [] && AllDigits(ds) && EndsNumber(rest)
    ensures var v := SignedValue(sign, ds);
      ScanDecimal(ws + sign + ds + rest)
        == if MinInt64 <= v <= MaxInt64 then Success(v) else Failure(ValueOutOfRange)
  {
    var t := sign + ds + rest;
    assert ws + sign + ds + rest == ws + t;
    SkipSpacePrefix(ws, t);
    assert t[0] == if sign == "" then ds[0] else sign[0];
    assert SkipSpace(t) == Some(t);
    ScanSignedReads(sign, ds, rest);
  }

  /** Conversely, text without spaces that ScanSigned reads is an optional
      sign, digits and text not starting with a digit, and the value read is
      the signed value of those digits. */
  lemma ScanSignedParts(t: string) returns (sign: string, ds: string, rest: string)
    requires ScanSigned(t).Success?
    ensures t == sign + ds + rest
    ensures IsSign(sign) && ds != [] && AllDigits(ds) && EndsNumber(rest)
    ensures ScanSigned(t) == Success(SignedValue(sign, ds))
  {
    sign := if t[0] == '-' || t[0] == '+' then [t[0]] else "";
    var u := t[|sign|..];
    assert t == sign + u;
    assert ScanSigned(t) == ScanDigits(u, sign == "-");
    ds := LeadingDigits(u);
    LeadingDigitsLongest(u);
    rest := u[|ds|..];
    assert u == ds + rest;
  }

  /** Every text %d reads is spaces, an optional sign, digits and text not
      starting with a digit, and the value read is the signed value of those
      digits: so every other text fails. */
  lemma ScanDecimalParts(text: string) returns (ws: string, sign: string, ds: string, rest: string)
    requires ScanDecimal(text).Success?
    ensures text == ws + sign + ds + rest
    ensures Blanks(ws) && IsSign(sign) && ds != [] && AllDigits(ds) && EndsNumber(rest)
    ensures ScanDecimal(text) == Success(SignedValue(sign, ds))
  {
    var t := SkipSpace(text).value;
    assert ScanDecimal(text) == ScanSigned(t);
    ws := SkippedSpace(text);
    sign, ds, rest := ScanSignedParts(t);
    assert text == ws + (sign + ds + rest);
    Regroup(ws, sign, ds, rest);
  }

  /** %d reads a minus sign followed by digits as the negated value, so by
      PortChecked such a port is rejected with that value. */
  lemma ScanNegative(digits: string)
    requires digits != [] && AllDigits(digits) && DigitsValue(digits) <= -MinInt64
    ensures ScanDecimal("-" + digits) == Success(-(DigitsValue(digits) as int))
  {
    ScanDecimalReads("", "-", digits, "");
    assert "" + "-" + digits + "" == "-" + digits;
  }

  /** %d reads back what FormatNat wrote. */
  lemma ScanFormatted(n: nat)
    requires n <= MaxInt64
    ensures ScanDecimal(FormatNat(n)) == Success(n)
  {
    FormatNatRoundTrip(n);
    ScanAllDigits(FormatNat(n));
  }

  /** A string of digits alone is read as its value. */
  lemma ScanAllDigits(s: string)
    requires s != [] && AllDigits(s)
    requires DigitsValue(s) <= MaxInt64
    ensures ScanDecimal(s) == Success(DigitsValue(s) as int)
  {
    ScanDecimalReads("", "", s, "");
    assert "" + "" + s + "" == s;
  }

  /** A '+' sign is accepted, and text after the digits is ignored. */
  lemma SignedAndTrailingPorts()
    ensures ValidAddr(":+80") == None
    ensures ValidAddr(":80abc") == None
  {
    assert DigitsValue("80") == 80 by {
      assert "80"[..1] == "8";
    }
    ScanDecimalReads("", "+", "80", "");
    assert "" + "+" + "80" + "" == "+80";
    PortChecked("", "+80", 80);
    assert "" + ":" + "+80" == ":+80";
    ScanDecimalReads("", "", "80", "abc");
    assert "" + "" + "80" + "abc" == "80abc";
    PortChecked("", "80abc", 80);
    assert "" + ":" + "80abc" == ":80abc";
  }

  /** A sign with no digits after it, or a newline before the number, is a
      bad port. */
  lemma BadPortTexts()
    ensures ValidAddr(":+") == Some(BadPort)
    ensures ValidAddr(":-") == Some(BadPort)
    ensures ValidAddr(":\n80") == Some(BadPort)
  {
    OnlyPortMatters("", "+");
    assert "" + ":" + "+" == ":+";
    OnlyPortMatters("", "-");
    assert "" + ":" + "-" == ":-";
    OnlyPortMatters("", "\n80");
    assert "" + ":" + "\n80" == ":\n80";
    assert "+"[1..] == [];
    assert "-"[1..] == [];
  }

  /** A negative port is read as such and then rejected for its range. */
  lemma NegativePortRejected()
    ensures ValidAddr(":-1") == Some(PortOutOfRange(-1))
  {
    assert CheckPort("-1") == Some(PortOutOfRange(-1)) by {
      MinusOneRead();
    }
    assert IndexOf(":-1", ':') == Some(0);
    assert ":-1"[1..] == "-1";
  }

  /** Spaces before the sign are skipped, and the host is not looked at. */
  lemma SpacedNegativePortRejected()
    ensures ValidAddr("localhost: -80") == Some(PortOutOfRange(-80))
  {
    var a := "localhost: -80";
    assert CheckPort(" -80") == Some(PortOutOfRange(-80)) by {
      MinusEightyRead();
    }
    assert IndexOf(a, ':') == Some(9) by {
      OnlyPortMatters("localhost", " -80");
      assert "localhost" + ":" + " -80" == a;
    }
    assert a[10..] == " -80";
  }

  lemma MinusOneRead()
    ensures ScanDecimal("-1") == Success(-1)
  {
    assert DigitsValue("1") == 1;
    ScanNegative("1");
    assert "-" + "1" == "-1";
  }

  lemma MinusEightyRead()
    ensures ScanDecimal(" -80") == Success(-80)
  {
    assert DigitsValue("80") == 80 by {
      assert "80"[..1] == "8";
    }
    ScanDecimalReads(" ", "-", "80", "");
    assert " " + "-" + "80" + "" == " -80";
  }

  /** The default listen address passes. */
  lemma DefaultAddrIsValid()
    ensures ValidAddr(DefaultAddr) == None
  {
    assert FormatNat(8080) == "8080" by {
      assert FormatNat(8) == "8";
      assert FormatNat(80) == "80";
      assert FormatNat(808) == "808";
    }
    assert "" + ":" + FormatNat(8080) == DefaultAddr;
    PortInRangeAccepted("", 8080);
  }
}
