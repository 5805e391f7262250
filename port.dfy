/** Port validation: `parse_port` on top of ISO C `strtol` with base 10
    (section 7.22.1.4 of ISO/IEC 9899:2011), on an LP64 target. */
module PortParse {
  import opened Sys

  predicate IsSpace(c: char) {
    c == ' ' || c == '\t' || c == '\n' || c == '\U{B}' || c == '\U{C}' || c == '\r'
  }

  predicate IsDigit(c: char) {
    '0' <= c <= '9'
  }

  predicate AllDigits(s: seq<char>) {
    forall i :: 0 <= i < |s| ==> IsDigit(s[i])
  }

  function DigitValue(c: char): (v: nat)
    requires IsDigit(c)
    ensures v < 10
  {
    (c - '0') as nat
  }

  function DigitChar(v: nat): (c: char)
    requires v < 10
    ensures IsDigit(c) && DigitValue(c) == v
  {
    ('0' as int + v) as char
  }

  /** The number a string of decimal digits denotes, most significant digit first. */
  function Value(s: seq<char>): (v: nat)
    requires AllDigits(s)
  {
    if s == [] then 0 else Value(s[..|s| - 1]) * 10 + DigitValue(s[|s| - 1])
  }

  /** The plain decimal rendering of n: no sign, no leading zeros. */
  function Render(n: nat): (s: CStr)
    ensures |s| > 0 && AllDigits(s)
  {
    if n < 10 then [DigitChar(n)] else Render(n / 10) + [DigitChar(n % 10)]
  }

  lemma {:induction false} RenderDigits(n: nat)
    ensures |Render(n)| > 0 && AllDigits(Render(n)) && Value(Render(n)) == n
    ensures Render(n)[0] != '0' || n == 0
  {
    if n >= 10 {
      RenderDigits(n / 10);
      var s := Render(n);
      assert s[..|s| - 1] == Render(n / 10);
    }
  }

  /** The longest prefix of s made of white space (the part strtol skips). */
  function SpacePrefix(s: seq<char>): (k: nat)
    ensures k <= |s|
    ensures forall i :: 0 <= i < k ==> IsSpace(s[i])
    ensures k < |s| ==> !IsSpace(s[k])
  {
    if s != [] && IsSpace(s[0]) then 1 + SpacePrefix(s[1..]) else 0
  }

  /** The length of the longest prefix of s made of decimal digits. */
  function DigitPrefix(s: seq<char>): (k: nat)
    ensures k <= |s| && AllDigits(s[..k])
    ensures k < |s| ==> !IsDigit(s[k])
  {
    if s != [] && IsDigit(s[0]) then
      var k := 1 + DigitPrefix(s[1..]);
      assert s[..k] == [s[0]] + s[1..][..k - 1];
      k
    else 0
  }

  /** What `strtol(s, &end, 10)` produces: the value returned, the characters
      from `end` on, and whether it set errno to ERANGE. */
  datatype Conversion = Conversion(value: int, rest: seq<char>, erange: bool)

  /** strtol: skip white space, then convert an optional sign and digits. */
  function Strtol10(s: CStr): (r: Conversion)
    ensures LONG_MIN <= r.value <= LONG_MAX
  {
    ConvertSigned(s, s[SpacePrefix(s)..])
  }

  /** t is s after its leading white space. */
  function ConvertSigned(s: seq<char>, t: seq<char>): (r: Conversion)
    ensures LONG_MIN <= r.value <= LONG_MAX
  {
    if t != [] && (t[0] == '-' || t[0] == '+') then ConvertDigits(s, t[0] == '-', t[1..])
    else ConvertDigits(s, false, t)
  }

  /** u is what follows the sign; without a digit nothing is converted and
      `end` is s itself. */
  function ConvertDigits(s: seq<char>, negative: bool, u: seq<char>): (r: Conversion)
    ensures LONG_MIN <= r.value <= LONG_MAX
  {
    var k := DigitPrefix(u);
    if k == 0 then Conversion(0, s, false)
    else Clamp(if negative then -(Value(u[..k]) as int) else Value(u[..k]), u[k..])
  }

  /** A value outside the range of `long` gives LONG_MAX or LONG_MIN and ERANGE. */
  function Clamp(v: int, rest: seq<char>): (r: Conversion)
    ensures LONG_MIN <= r.value <= LONG_MAX
    ensures r.erange <==> !(LONG_MIN <= v <= LONG_MAX)
    ensures !r.erange ==> r.value == v
    ensures v > LONG_MAX ==> r.value == LONG_MAX
    ensures v < LONG_MIN ==> r.value == LONG_MIN
    ensures r.rest == rest
  {
    if v > LONG_MAX then Conversion(LONG_MAX, rest, true)
    else if v < LONG_MIN then Conversion(LONG_MIN, rest, true)
    else Conversion(v, rest, false)
  }

  /** Conversion of a `long` to `int`: the C standard leaves out-of-range values
      implementation-defined; GCC reduces them modulo 2^32. */
  function ToInt32(v: int): (r: int)
    ensures -INT_RANGE / 2 <= r < INT_RANGE / 2
    ensures (r - v) % INT_RANGE == 0
    ensures -INT_RANGE / 2 <= v < INT_RANGE / 2 ==> r == v
  {
    var m := v % INT_RANGE;
    if m >= INT_RANGE / 2 then m - INT_RANGE else m
  }

  /** `parse_port` as written: errno is the value it has on entry (it is not
      cleared first); the result is -1 or the port. The guard tests the value
      after the conversion to `int`. */
  function ParsePortAsWritten(s: CStr, errno: int): (p: int)
    ensures p == -1 || 1 <= p <= 65535
  {
    var c := Strtol10(s);
    var port := ToInt32(c.value);
    var errnoAfter := if c.erange then ERANGE else errno;
    if errnoAfter != 0 || c.rest != [] || port <= 0 || 65536 <= port then -1 else port
  }

  /** `parse_port` with the range test on the `long` that strtol returned,
      which is what its guard evidently intends. */
  function ParsePort(s: CStr, errno: int): (p: int)
    ensures p == -1 || 1 <= p <= 65535
    ensures p != -1 ==> p == Strtol10(s).value && Strtol10(s).rest == [] && errno == 0
  {
    var c := Strtol10(s);
    var errnoAfter := if c.erange then ERANGE else errno;
    if errnoAfter != 0 || c.rest != [] || c.value <= 0 || 65536 <= c.value then -1 else c.value
  }

  /** errno as it stands after `parse_port` returns: strtol sets ERANGE on overflow. */
  function ErrnoAfterParse(s: CStr, errno: int): (e: int)
    ensures e == errno || e == ERANGE
  {
    if Strtol10(s).erange then ERANGE else errno
  }

  lemma {:induction false} AllDigitsPrefix(s: seq<char>)
    requires AllDigits(s)
    ensures DigitPrefix(s) == |s|
  {
    if s != [] {
      AllDigitsPrefix(s[1..]);
    }
  }

  /** strtol on a digit string that starts with a digit converts all of it. */
  lemma StrtolDigits(s: CStr)
    requires s != [] && AllDigits(s)
    ensures Strtol10(s) == Clamp(Value(s), [])
  {
    assert !IsSpace(s[0]) && s[0] != '-' && s[0] != '+';
    assert s[SpacePrefix(s)..] == s;
    AllDigitsPrefix(s);
    assert s[..|s|] == s;
  }

  /** strtol converts the plain rendering of n to n, consuming all of it. */
  lemma StrtolRender(n: nat)
    requires n <= LONG_MAX
    ensures Strtol10(Render(n)) == Conversion(n, [], false)
  {
    RenderDigits(n);
    StrtolDigits(Render(n));
  }

  /** Every port 1..65535 written in plain decimal is accepted as itself when
      errno is 0 on entry, by both versions of `parse_port`. */
  lemma PortRoundTrip(n: nat)
    requires 1 <= n <= 65535
    ensures ParsePort(Render(n), 0) == n
    ensures ParsePortAsWritten(Render(n), 0) == n
  {
    StrtolRender(n);
  }

  /** A stale errno rejects every string. */
  lemma StaleErrnoRejects(s: CStr, errno: int)
    requires errno != 0
    ensures ParsePort(s, errno) == -1
    ensures ParsePortAsWritten(s, errno) == -1
  {
  }

  /** Digits followed by anything that does not start with a digit are rejected:
      strtol stops at the first non-digit and leaves it in `end`. */
  lemma TrailingRejects(digits: CStr, tail: CStr, errno: int)
    requires digits != [] && AllDigits(digits)
    requires tail != [] && !IsDigit(tail[0])
    ensures ParsePort(digits + tail, errno) == -1
    ensures ParsePortAsWritten(digits + tail, errno) == -1
  {
    var s: CStr := digits + tail;
    assert s[0] == digits[0];
    assert s[SpacePrefix(s)..] == s;
    DigitsThenTail(digits, tail);
    assert s[..|digits|] == digits && s[|digits|..] == tail;
  }

  lemma {:induction false} DigitsThenTail(digits: seq<char>, tail: seq<char>)
    requires AllDigits(digits)
    requires tail != [] && !IsDigit(tail[0])
    ensures DigitPrefix(digits + tail) == |digits|
  {
    if digits != [] {
      assert (digits + tail)[1..] == digits[1..] + tail;
      DigitsThenTail(digits[1..], tail);
    }
  }

  /** strtol skips leading white space, so one more space never changes the outcome. */
  lemma LeadingSpaceIgnored(s: CStr, errno: int)
    ensures ParsePort([' '] + s, errno) == ParsePort(s, errno)
    ensures ParsePortAsWritten([' '] + s, errno) == ParsePortAsWritten(s, errno)
  {
    var t: CStr := [' '] + s;
    assert t[1..] == s;
    assert SpacePrefix(t) == 1 + SpacePrefix(s);
    var rest := s[SpacePrefix(s)..];
    assert t[SpacePrefix(t)..] == rest;
    SameSubject(t, s, rest);
  }

  /** Two strings with the same text after their white space convert alike,
      except for `end` when nothing is converted, which is then non-empty. */
  lemma SameSubject(s1: seq<char>, s2: seq<char>, t: seq<char>)
    ensures ConvertSigned(s1, t).value == ConvertSigned(s2, t).value
    ensures ConvertSigned(s1, t).erange == ConvertSigned(s2, t).erange
    ensures s1 != [] && s2 != [] ==> (ConvertSigned(s1, t).rest == [] <==> ConvertSigned(s2, t).rest == [])
  {
  }

  /** The defect: the range test applied after truncation to `int` lets
      2^32 + 80 through as port 80. */
  lemma AsWrittenAcceptsWrapped()
    ensures ParsePortAsWritten("4294967376", 0) == 80
    ensures ParsePort("4294967376", 0) == -1
  {
    RenderLiteral();
    WrappedParses(INT_RANGE + 80);
  }

  /** Any rendering strtol reads as a value 2^32 + 80 passes the as-written
      guard as 80 and fails the corrected one. */
  lemma WrappedParses(n: nat)
    requires n == INT_RANGE + 80
    ensures ParsePortAsWritten(Render(n), 0) == 80
    ensures ParsePort(Render(n), 0) == -1
  {
    StrtolRender(n);
    assert ToInt32(n) == 80 by { assert n % INT_RANGE == 80; }
  }

  lemma RenderLiteral()
    ensures Render(INT_RANGE + 80) == "4294967376"
  {
    assert Render(4) == "4";
    RenderStep(42, "4", '2');
    RenderStep(429, "42", '9');
    RenderStep(4294, "429", '4');
    RenderStep(42949, "4294", '9');
    RenderStep(429496, "42949", '6');
    RenderStep(4294967, "429496", '7');
    RenderStep(42949673, "4294967", '3');
    RenderStep(429496737, "42949673", '7');
    RenderStep(4294967376, "429496737", '6');
  }

  lemma RenderStep(n: nat, prefix: seq<char>, last: char)
    requires n >= 10 && Render(n / 10) == prefix && last == DigitChar(n % 10)
    ensures Render(n) == prefix + [last]
  {
  }

  /** With the corrected test, a digit string is accepted exactly when errno is 0
      and its value is a port, and then the port is that value. */
  lemma AcceptedMeansValue(s: CStr, errno: int)
    requires AllDigits(s)
    ensures ParsePort(s, errno) != -1 <==> errno == 0 && s != [] && 1 <= Value(s) <= 65535
    ensures ParsePort(s, errno) != -1 ==> ParsePort(s, errno) == Value(s)
  {
    if s != [] {
      StrtolDigits(s);
    }
  }
}
