/** Textual network addresses as the proxy builds them with `fmt.Sprintf`:
    a host, a colon and a 16-bit port rendered in decimal (`%s:%d`). */
module Address {

  /** Go's `uint16`, the type of the proxy's listen port and of a backend's public port. */
  newtype uint16 = x: int | 0 <= x < 0x1_0000

  datatype Option<T> = None | Some(value: T)

  predicate IsDigit(c: char) {
    '0' <= c <= '9'
  }

  predicate AllDigits(s: string) {
    forall i :: 0 <= i < |s| ==> IsDigit(s[i])
  }

  function DigitChar(d: nat): (c: char)
    requires d < 10
    ensures IsDigit(c)
  {
    ('0' as int + d) as char
  }

  function DigitValue(c: char): (d: nat)
    requires IsDigit(c)
    ensures d < 10 && DigitChar(d) == c
  {
    c as int - '0' as int
  }

  /** The decimal rendering of `n` that `%d` produces: digits only, most significant
      first, no leading zero except for zero itself. */
  function Decimal(n: nat): (s: string)
    ensures 1 <= |s| && AllDigits(s)
    ensures s[0] == '0' <==> n == 0
    ensures n < 10 ==> |s| == 1
    decreases n
  {
    if n < 10 then [DigitChar(n)] else Decimal(n / 10) + [DigitChar(n % 10)]
  }

  /** Reads a string of decimal digits back as a number (the inverse of `Decimal`). */
  function ParseDecimal(s: string): (n: nat)
    requires AllDigits(s)
    decreases |s|
  {
    if s == [] then 0 else ParseDecimal(s[..|s| - 1]) * 10 + DigitValue(s[|s| - 1])
  }

  lemma {:induction false} ParseDecimalOfDecimal(n: nat)
    ensures ParseDecimal(Decimal(n)) == n
    decreases n
  {
    if n >= 10 {
      var s := Decimal(n);
      assert s[..|s| - 1] == Decimal(n / 10);
      ParseDecimalOfDecimal(n / 10);
    }
  }

  /** Two numbers render alike exactly when they are equal. */
  lemma DecimalInjective(a: nat, b: nat)
    ensures Decimal(a) == Decimal(b) <==> a == b
  {
    if Decimal(a) == Decimal(b) {
      ParseDecimalOfDecimal(a);
      ParseDecimalOfDecimal(b);
    }
  }

  /** `fmt.Sprintf("%s:%d", host, port)`. */
  function JoinHostPort(host: string, port: uint16): (addr: string)
  {
    host + ":" + Decimal(port as nat)
  }

  /** The address the proxy resolves and listens on (proxy/proxy.go:40). */
  function ListenAddress(listen: string, port: uint16): (addr: string)
  {
    JoinHostPort(listen, port)
  }

  const Loopback: string := "127.0.0.1"

  /** The address dialled for a backend: the loopback host and the backend's public
      port (proxy/proxy.go:84). */
  function DialTarget(publicPort: uint16): (addr: string)
  {
    JoinHostPort(Loopback, publicPort)
  }

  /** Index of the last colon of `s`, if any. */
  function LastColon(s: string): (r: Option<nat>)
    ensures r.Some? ==> r.value < |s| && s[r.value] == ':'
    ensures r.Some? ==> forall j :: r.value < j < |s| ==> s[j] != ':'
    ensures r.None? ==> forall j :: 0 <= j < |s| ==> s[j] != ':'
    decreases |s|
  {
    if s == [] then None
    else if s[|s| - 1] == ':' then Some(|s| - 1)
    else LastColon(s[..|s| - 1])
  }

  /** Splits `host:port` at its last colon into the host and a 16-bit decimal port:
      this model's own inverse of the `%s:%d` format, against which the address
      builders are checked. It is not Go's `net.SplitHostPort`, which `ResolveTCPAddr`
      applies and which rejects an unbracketed host holding a colon. */
  function SplitAtLastColon(addr: string): (r: Option<(string, uint16)>)
  {
    match LastColon(addr)
    case None => None
    case Some(i) =>
      var digits := addr[i + 1..];
      if digits != [] && AllDigits(digits) && ParseDecimal(digits) < 0x1_0000 then
        Some((addr[..i], ParseDecimal(digits) as uint16))
      else
        None
  }

  /** Joining a host with a port and splitting the result at its last colon gives
      back both parts. */
  lemma SplitJoinHostPort(host: string, port: uint16)
    ensures SplitAtLastColon(JoinHostPort(host, port)) == Some((host, port))
  {
    var digits := Decimal(port as nat);
    var addr := JoinHostPort(host, port);
    assert forall j :: |host| < j < |addr| ==> addr[j] == digits[j - |host| - 1];
    assert addr[|host|] == ':';
    assert LastColon(addr) == Some(|host|);
    assert addr[|host| + 1..] == digits;
    assert addr[..|host|] == host;
    ParseDecimalOfDecimal(port as nat);
  }

  /** Distinct backend ports give distinct dial targets, and every target is the
      loopback host with the port in decimal. */
  lemma DialTargetFormat(a: uint16, b: uint16)
    ensures SplitAtLastColon(DialTarget(a)) == Some((Loopback, a))
    ensures DialTarget(a) == DialTarget(b) <==> a == b
  {
    SplitJoinHostPort(Loopback, a);
    SplitJoinHostPort(Loopback, b);
  }

  /** The listen address carries the configured host and port unchanged. */
  lemma ListenAddressFormat(listen: string, port: uint16)
    ensures SplitAtLastColon(ListenAddress(listen, port)) == Some((listen, port))
    ensures ListenAddress(listen, port)[..|listen|] == listen
  {
    SplitJoinHostPort(listen, port);
  }
}
