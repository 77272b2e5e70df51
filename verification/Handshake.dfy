/**
  What the three proxy handshakes put on the wire and take off it: SOCKS4a, SOCKS5
  (RFC 1928) and HTTP CONNECT (section 5.3 of RFC 2817).
 */
module Handshake {
  import opened Settings
  import opened Transport
  import opened Scanner

  const NI_MAXHOST: nat := 1025
  const BUFFER_SIZE: nat := NI_MAXHOST + 16
  const LINE_SIZE: nat := 4096

  const SUCCESS4: byte := 0x5a as char

  datatype Kind = Socks4a | Socks5 | Http

  /** `ok`, how many bytes of the input were taken, and what was sent. */
  datatype Outcome = Outcome(ok: bool, used: nat, sent: bytes)

  function B(n: int): byte
    requires 0 <= n < 256
  {
    n as char
  }

  function PortBytes(port: nat): bytes
    requires port < 65536
  {
    [B(port / 256), B(port % 256)]
  }

  predicate ValidHost(host: bytes) {
    |host| < NI_MAXHOST && NUL !in host
  }

  // ---- SOCKS4a ----

  function Request4a(host: bytes, port: nat): bytes
    requires port < 65536
  {
    [B(4), B(1)] + PortBytes(port) + [B(0), B(0), B(0), B(1), B(0)] + host + [NUL]
  }

  function Connect4a(host: bytes, port: nat, input: bytes): Outcome
    requires port < 65536
  {
    if |input| < 8 then Outcome(false, |input|, Request4a(host, port))
    else Outcome(input[1] == SUCCESS4, 8, Request4a(host, port))
  }

  // ---- SOCKS5 ----

  const Hello5: bytes := [B(5), B(1), B(0)]

  function Request5(host: bytes, port: nat): bytes
    requires port < 65536 && |host| < 256
  {
    [B(5), B(1), B(0), B(3), B(|host|)] + host + PortBytes(port)
  }

  /** The reply to the connect request: whether it is a success, and how much of it is taken. */
  function Reply5(input: bytes): (bool, nat) {
    if |input| < 4 then (false, |input|)
    else if input[0] != B(5) || input[1] != B(0) then (false, 4)
    else if input[3] == B(3) then
      if |input| < 5 || |input| < 7 + input[4] as int then (false, |input|) else (true, 7 + input[4] as int)
    else if input[3] == B(1) then
      if |input| < 10 then (false, |input|) else (true, 10)
    else (true, 4)
  }

  function Connect5(host: bytes, port: nat, input: bytes): Outcome
    requires port < 65536
  {
    if |host| >= 256 then Outcome(false, 0, [])
    else if |input| < 2 then Outcome(false, |input|, Hello5)
    else if input[0] != B(5) || input[1] != B(0) then Outcome(false, 2, Hello5)
    else
      var (ok, used) := Reply5(input[2..]);
      Outcome(ok, 2 + used, Hello5 + Request5(host, port))
  }

  // ---- HTTP CONNECT ----

  function Decimal(n: nat): (s: bytes)
    ensures |s| >= 1
  {
    if n < 10 then [B(48 + n)] else Decimal(n / 10) + [B(48 + n % 10)]
  }

  function RequestLine(host: bytes, port: nat): bytes {
    "CONNECT " + host + ":" + Decimal(port) + " HTTP/1.1\r\n"
  }

  function HostLine(host: bytes, port: nat): bytes {
    "Host: " + host + ":" + Decimal(port) + "\r\n"
  }

  function RequestHttp(host: bytes, port: nat): bytes {
    RequestLine(host, port) + HostLine(host, port) + CRLF
  }

  lemma {:induction false} PortDigits(port: nat)
    requires port < 65536
    ensures |Decimal(port)| <= 5
  {
    var tens := port / 10;
    assert |Decimal(tens / 10 / 10)| <= 2;
    assert |Decimal(tens)| <= 4;
  }

  /** Both request lines fit the line buffer, so snprintf() cuts nothing off. */
  lemma {:induction false} RequestFits(host: bytes, port: nat)
    requires ValidHost(host) && port < 65536
    ensures |RequestLine(host, port)| < LINE_SIZE && |HostLine(host, port)| < LINE_SIZE
  {
    PortDigits(port);
  }

  /** The position of the first line feed, or the length. */
  function LineFeed(s: bytes): (i: nat)
    ensures i <= |s|
    ensures i < |s| ==> s[i] == '\n'
    ensures '\n' !in s[..i]
  {
    if s == [] || s[0] == '\n' then 0
    else
      var i := LineFeed(s[1..]);
      assert s[..i + 1] == [s[0]] + s[1..][..i];
      1 + i
  }

  /** sock_gets: a line that fits the buffer, or failure after at most LINE_SIZE bytes. */
  function Gets(input: bytes): (r: (bool, nat))
    ensures r.1 <= |input|
    ensures r.0 ==> r.1 > 0
  {
    var i := LineFeed(input);
    if i < |input| && i < LINE_SIZE - 1 then (true, i + 1) else (false, Least(|input|, LINE_SIZE))
  }

  /** "HTTP/%*s %d" */
  const StatusFormat: Format := Lit('H', Lit('T', Lit('T', Lit('P', Lit('/', SkipWord(Space(Int(Done))))))))

  predicate Success(line: bytes) {
    var fields := Scan(StatusFormat, CStr(line));
    |fields| == 1 && fields[0].Num? && 200 <= fields[0].n <= 299
  }

  /** The header lines up to the first empty one. */
  function Headers(input: bytes): (r: (bool, nat))
    ensures r.1 <= |input|
    decreases |input|
  {
    var (ok, n) := Gets(input);
    if !ok then (false, n)
    else if input[..n] == CRLF then (true, n)
    else
      var (ok', m) := Headers(input[n..]);
      (ok', n + m)
  }

  lemma {:induction false} HeadersStep(input: bytes)
    ensures var (ok, n) := Gets(input);
            Headers(input) == if !ok then (false, n) else if input[..n] == CRLF then (true, n)
                              else (Headers(input[n..]).0, n + Headers(input[n..]).1)
  {
  }

  /** What is left of the input after the headers. */
  function AfterHeaders(input: bytes): bytes {
    input[Headers(input).1..]
  }

  lemma {:induction false} SkipLine(input: bytes)
    requires Gets(input).0 && input[..Gets(input).1] != CRLF
    ensures var rest := input[Gets(input).1..];
            Headers(rest).0 == Headers(input).0 && AfterHeaders(rest) == AfterHeaders(input)
  {
    HeadersStep(input);
    DropDrop(input, Gets(input).1, Headers(input[Gets(input).1..]).1);
  }

  lemma DropDrop(s: bytes, n: nat, m: nat)
    requires n + m <= |s|
    ensures s[n..][m..] == s[n + m..]
  {
  }

  function ConnectHttp(host: bytes, port: nat, input: bytes): Outcome {
    var (ok, n) := Gets(input);
    if !ok || !Success(input[..n]) then Outcome(false, n, RequestHttp(host, port))
    else
      var (ok', m) := Headers(input[n..]);
      Outcome(ok', n + m, RequestHttp(host, port))
  }

  function Connect(kind: Kind, host: bytes, port: nat, input: bytes): (o: Outcome)
    requires port < 65536
    ensures o.used <= |input|
  {
    match kind
    case Socks4a => Connect4a(host, port, input)
    case Socks5 => Connect5(host, port, input)
    case Http => ConnectHttp(host, port, input)
  }

  /** All that a successful handshake of this kind sends. */
  function Request(kind: Kind, host: bytes, port: nat): bytes
    requires port < 65536
  {
    match kind
    case Socks4a => Request4a(host, port)
    case Socks5 => if |host| < 256 then Hello5 + Request5(host, port) else []
    case Http => RequestHttp(host, port)
  }

  lemma {:induction false} ConnectSends(kind: Kind, host: bytes, port: nat, input: bytes)
    requires port < 65536
    ensures var o := Connect(kind, host, port, input);
            && o.sent <= Request(kind, host, port)
            && (o.ok ==> o.sent == Request(kind, host, port))
            && (kind == Socks5 && |host| >= 256 ==> !o.ok && o.sent == [] && o.used == 0)
  {
    assert kind == Socks5 && |host| < 256 ==> Hello5 == Request(kind, host, port)[..3];
  }

  // ---- decoding what was sent ----

  /** A CONNECT request for a domain name, section 4 of RFC 1928. */
  function Decode5(s: bytes): Option<(bytes, nat)> {
    if |s| < 5 || s[0] != B(5) || s[1] != B(1) || s[2] != B(0) || s[3] != B(3) then None
    else
      var n := s[4] as int;
      if |s| != 7 + n then None
      else Some((s[5..5 + n], 256 * s[5 + n] as int + s[6 + n] as int))
  }

  function UntilNul(s: bytes): (n: nat)
    ensures n <= |s|
  {
    if s == [] || s[0] == NUL then 0 else 1 + UntilNul(s[1..])
  }

  /** A SOCKS4a connect: an address 0.0.0.x asks for the name behind the user id. */
  function Decode4a(s: bytes): Option<(bytes, nat)> {
    if |s| < 9 || s[0] != B(4) || s[1] != B(1) || s[4..7] != [B(0), B(0), B(0)] || s[7] == B(0) then None
    else
      var u := 8 + UntilNul(s[8..]);
      if u >= |s| then None
      else
        var n := u + 1 + UntilNul(s[u + 1..]);
        if n + 1 != |s| then None
        else Some((s[u + 1..n], 256 * s[2] as int + s[3] as int))
  }

  lemma {:induction false} Socks5RoundTrip(host: bytes, port: nat)
    requires |host| < 256 && port < 65536
    ensures Decode5(Request5(host, port)) == Some((host, port))
  {
    var s := Request5(host, port);
    assert s[5..5 + |host|] == host;
  }

  lemma {:induction false} UntilNulStops(host: bytes, rest: bytes)
    requires NUL !in host
    ensures UntilNul(host + [NUL] + rest) == |host|
  {
    var s := host + [NUL] + rest;
    if host != [] {
      assert s[1..] == host[1..] + [NUL] + rest;
      UntilNulStops(host[1..], rest);
    }
  }

  lemma {:induction false} Socks4aRoundTrip(host: bytes, port: nat)
    requires ValidHost(host) && port < 65536
    ensures Decode4a(Request4a(host, port)) == Some((host, port))
    ensures Request4a(host, port)[4..9] == [0 as char, 0 as char, 0 as char, 1 as char, 0 as char]
  {
    var s := Request4a(host, port);
    assert s[8..] == [] + [NUL] + (host + [NUL]);
    UntilNulStops([], host + [NUL]);
    assert s[9..] == host + [NUL] + [];
    UntilNulStops(host, []);
    assert s[9..9 + |host|] == host;
    assert s[4..7] == [B(0), B(0), B(0)];
  }

  // ---- framing ----

  /** The length of a SOCKS5 reply by section 6 of RFC 1928, where the address type is assigned. */
  function RfcReplyLength(reply: bytes): Option<nat> {
    if |reply| < 5 then None
    else if reply[3] == B(1) then Some(10)
    else if reply[3] == B(3) then Some(7 + reply[4] as int)
    else if reply[3] == B(4) then Some(22)
    else None
  }

  /** A successful SOCKS5 handshake takes exactly the reply just when the address is IPv4 or a name. */
  lemma {:induction false} Socks5Framing(host: bytes, port: nat, input: bytes)
    requires port < 65536 && |host| < 256
    requires Connect5(host, port, input).ok
    ensures RfcReplyLength(input[2..]) == Some(Connect5(host, port, input).used - 2)
            <==> input[5] in {B(1), B(3)}
  {
  }

  /** The method reply, then the head of a success reply that announces an IPv6 address. */
  const Ipv6Replies: bytes := [B(5), B(0), B(5), B(0), B(0), B(4)]

  /** The address itself stays in the stream, where the reader takes it for payload. */
  lemma {:induction false} Socks5LeavesIpv6Address(host: bytes, port: nat, address: bytes, payload: bytes)
    requires port < 65536 && |host| < 256 && |address| == 18
    ensures var input := Ipv6Replies + (address + payload);
            var o := Connect5(host, port, input);
            o.ok && input[o.used..] == address + payload
  {
    var input := Ipv6Replies + (address + payload);
    assert forall k :: 0 <= k < 4 ==> input[2..][k] == Ipv6Replies[k + 2];
    assert Reply5(input[2..]) == (true, 4);
    assert input[6..] == address + payload;
  }

  /** A line as sock_gets reads it: one line feed, at its end, and room for the terminator. */
  predicate Line(s: bytes) {
    0 < |s| < 4096 && s[|s| - 1] == '\n' && '\n' !in s[..|s| - 1]
  }

  function Concat(lines: seq<bytes>): bytes {
    if lines == [] then [] else lines[0] + Concat(lines[1..])
  }

  predicate HeaderLines(lines: seq<bytes>) {
    forall i :: 0 <= i < |lines| ==> Line(lines[i]) && lines[i] != CRLF
  }

  lemma {:induction false} LineFeedAt(s: bytes, i: nat)
    requires i < |s| && s[i] == '\n' && '\n' !in s[..i]
    ensures LineFeed(s) == i
  {
    if i > 0 {
      assert s[..i] == [s[0]] + s[1..i];
      LineFeedAt(s[1..], i - 1);
    }
  }

  lemma {:induction false} GetsLine(line: bytes, tail: bytes)
    requires Line(line)
    ensures Gets(line + tail) == (true, |line|)
  {
    var s := line + tail;
    assert s[..|line| - 1] == line[..|line| - 1];
    LineFeedAt(s, |line| - 1);
  }

  lemma {:induction false} GotLine(input: bytes)
    requires Gets(input).0
    ensures Line(input[..Gets(input).1])
  {
    var n := Gets(input).1;
    assert input[..n][..n - 1] == input[..n - 1];
  }

  lemma {:induction false} CStrPrefix(s: string)
    ensures CStr(s) <= s
  {
    if s != [] && s[0] != NUL { CStrPrefix(s[1..]); }
  }

  /** Comparing the line as a C string with CRLF is comparing the line. */
  lemma {:induction false} EmptyLine(line: bytes)
    requires Line(line)
    ensures CStr(line) == CRLF <==> line == CRLF
  {
    CStrPrefix(line);
    assert CStr(CRLF) == ['\r'] + CStr(CRLF[1..]) && CRLF[1..] == ['\n'];
  }

  lemma {:induction false} HeadersOfNone(tail: bytes)
    ensures Headers(CRLF + tail) == (true, 2)
  {
    GetsLine(CRLF, tail);
    assert (CRLF + tail)[..2] == CRLF;
  }

  lemma {:induction false} HeadersOfLine(line: bytes, rest: bytes)
    requires Line(line) && line != CRLF && Headers(rest).0
    ensures Headers(line + rest) == (true, |line| + Headers(rest).1)
  {
    GetsLine(line, rest);
    HeadersStep(line + rest);
    assert (line + rest)[..|line|] == line && (line + rest)[|line|..] == rest;
  }

  lemma RegroupLine(line: bytes, rest: bytes, end: bytes, tail: bytes)
    ensures [] + end + tail == end + tail
    ensures line + rest + end + tail == line + (rest + end + tail)
  {
  }

  lemma {:induction false} HeadersCons(line: bytes, rest: bytes, tail: bytes)
    requires Line(line) && line != CRLF && Headers(rest + CRLF + tail) == (true, |rest| + 2)
    ensures Headers(line + rest + CRLF + tail) == (true, |line| + |rest| + 2)
  {
    HeadersOfLine(line, rest + CRLF + tail);
    RegroupLine(line, rest, CRLF, tail);
  }

  lemma {:induction false} HeadersOf(lines: seq<bytes>, tail: bytes)
    requires HeaderLines(lines)
    ensures Headers(Concat(lines) + CRLF + tail) == (true, |Concat(lines)| + 2)
  {
    if lines == [] {
      HeadersOfNone(tail);
      RegroupLine([], [], CRLF, tail);
    } else {
      HeadersOf(lines[1..], tail);
      HeadersCons(lines[0], Concat(lines[1..]), tail);
    }
  }

  lemma {:induction false} ConcatCons(line: bytes, lines: seq<bytes>)
    ensures Concat([line] + lines) == line + Concat(lines)
  {
    assert ([line] + lines)[1..] == lines;
  }

  lemma {:induction false} HeadersSplit(input: bytes) returns (lines: seq<bytes>)
    requires Headers(input).0
    ensures HeaderLines(lines) && input[..Headers(input).1] == Concat(lines) + CRLF
    decreases |input|
  {
    var n := Gets(input).1;
    GotLine(input);
    if input[..n] == CRLF {
      return [];
    }
    var rest := HeadersSplit(input[n..]);
    var m := Headers(input[n..]).1;
    lines := [input[..n]] + rest;
    assert input[..Headers(input).1] == Concat(lines) + CRLF by {
      assert Headers(input) == (true, n + m);
      ConcatCons(input[..n], rest);
      SplitAt(input, n, m, Concat(rest), CRLF);
    }
  }

  lemma {:induction false} SplitAt(s: bytes, n: nat, m: nat, a: bytes, b: bytes)
    requires n + m <= |s| && s[n..][..m] == a + b
    ensures s[..n + m] == s[..n] + a + b
  {
    assert s[..n + m] == s[..n] + s[n..][..m];
  }

  /** CONNECT takes the status line, the headers and the first empty line, and no byte more. */
  lemma {:induction false} HttpFraming(host: bytes, port: nat, status: bytes, lines: seq<bytes>, tail: bytes)
    requires Line(status) && Success(status) && HeaderLines(lines)
    ensures var reply := status + Concat(lines) + CRLF;
            ConnectHttp(host, port, reply + tail) == Outcome(true, |reply|, RequestHttp(host, port))
  {
    var rest := Concat(lines) + CRLF + tail;
    var input := status + Concat(lines) + CRLF + tail;
    assert input == status + rest;
    GetsLine(status, rest);
    assert input[..|status|] == status && input[|status|..] == rest;
    HeadersOf(lines, tail);
  }

  /** Nothing else makes CONNECT succeed. */
  lemma {:induction false} HttpOnlyFraming(host: bytes, port: nat, input: bytes)
    returns (status: bytes, lines: seq<bytes>)
    requires ConnectHttp(host, port, input).ok
    ensures Line(status) && Success(status) && HeaderLines(lines)
    ensures input[..ConnectHttp(host, port, input).used] == status + Concat(lines) + CRLF
  {
    var n := Gets(input).1;
    GotLine(input);
    status := input[..n];
    lines := HeadersSplit(input[n..]);
    SplitAt(input, n, Headers(input[n..]).1, Concat(lines), CRLF);
  }

  /** A successful handshake looks at nothing beyond what it takes. */
  lemma {:induction false} ConnectLocal(kind: Kind, host: bytes, port: nat, input: bytes, tail: bytes)
    requires port < 65536 && Connect(kind, host, port, input).ok
    ensures var o := Connect(kind, host, port, input);
            Connect(kind, host, port, input[..o.used] + tail) == o
  {
    var o := Connect(kind, host, port, input);
    var other := input[..o.used] + tail;
    match kind
    case Socks4a =>
    case Socks5 =>
      assert forall i :: 0 <= i < o.used - 2 ==> other[2..][i] == input[2..][i];
    case Http =>
      var status, lines := HttpOnlyFraming(host, port, input);
      HttpFraming(host, port, status, lines, tail);
  }

  // ---- what makes a handshake succeed ----

  /** A SOCKS4a proxy says yes with the code 90 in the second of the 8 bytes of its reply. */
  lemma {:induction false} Socks4aSucceeds(host: bytes, port: nat, input: bytes)
    requires port < 65536
    ensures var o := Connect4a(host, port, input);
            && (o.ok <==> |input| >= 8 && input[1] as int == 90)
            && o.used == Least(8, |input|)
  {
  }

  /** A SOCKS5 proxy says yes with method 0 and reply 0, and all it announces of its address must be there. */
  lemma {:induction false} Socks5Succeeds(host: bytes, port: nat, input: bytes)
    requires port < 65536
    ensures Connect5(host, port, input).ok <==>
              && |host| <= 255 && |input| >= 6
              && input[0] as int == 5 && input[1] as int == 0
              && input[2] as int == 5 && input[3] as int == 0
              && (input[5] as int == 1 ==> |input| >= 12)
              && (input[5] as int == 3 ==> |input| >= 7 && |input| >= 9 + input[6] as int)
    ensures Connect5(host, port, input).ok ==>
              Connect5(host, port, input).used
              == if input[5] as int == 1 then 12 else if input[5] as int == 3 then 9 + input[6] as int else 6
  {
    if |input| >= 2 {
      assert forall i :: 0 <= i < |input| - 2 ==> input[2..][i] == input[i + 2];
    }
  }

  /** A line is given up after 4096 bytes without a line end, or at the end of the input. */
  lemma {:induction false} LongLineFails(input: bytes)
    requires '\n' !in input[..Least(|input|, 4095)]
    ensures Gets(input) == (false, Least(|input|, 4096))
  {
    var start := input[..Least(|input|, 4095)];
    assert forall k :: 0 <= k < |start| ==> start[k] == input[k];
  }

  /** A status line counts as a success just for a status from 200 to 299, whatever the version. */
  lemma {:induction false} StatusDecides(version: bytes, digits: bytes, rest: bytes)
    requires version != [] && forall i :: 0 <= i < |version| ==> !IsSpace(version[i]) && version[i] != NUL
    requires digits != [] && AllDigits(digits)
    requires rest != [] && !IsDigit(rest[0]) && NUL !in rest
    ensures Success("HTTP/" + (version + (" " + (digits + rest)))) <==> 200 <= Value(digits) <= 299
  {
    var tail := digits + rest;
    var line := "HTTP/" + (version + (" " + tail));
    CStrWhole(line);
    ScanPrefix(version + (" " + tail));
    ScanSkipWord(Space(Int(Done)), version, " " + tail);
    ScanSpace(Int(Done), " ", tail);
    ScanInt(Done, digits, rest);
  }

  lemma {:induction false} ScanFive(f: Format, a: char, b: char, c: char, d: char, e: char, s: string)
    ensures Scan(Lit(a, Lit(b, Lit(c, Lit(d, Lit(e, f))))), [a] + ([b] + ([c] + ([d] + ([e] + s))))) == Scan(f, s)
  {
    var s1 := [e] + s;
    var s2 := [d] + s1;
    var s3 := [c] + s2;
    ScanLit(Lit(b, Lit(c, Lit(d, Lit(e, f)))), a, [b] + s3);
    ScanLit(Lit(c, Lit(d, Lit(e, f))), b, s3);
    ScanLit(Lit(d, Lit(e, f)), c, s2);
    ScanLit(Lit(e, f), d, s1);
    ScanLit(f, e, s);
  }

  lemma Peel(s: string)
    ensures "HTTP/" + s == ['H'] + (['T'] + (['T'] + (['P'] + (['/'] + s))))
  {
  }

  lemma {:induction false} ScanPrefix(s: string)
    ensures Scan(StatusFormat, "HTTP/" + s) == Scan(SkipWord(Space(Int(Done))), s)
  {
    Peel(s);
    ScanFive(SkipWord(Space(Int(Done))), 'H', 'T', 'T', 'P', '/', s);
  }

  // ---- decoding the greeting and the CONNECT request ----

  /** The greeting of section 3 of RFC 1928: the methods offered, and what follows it. */
  function DecodeHello(s: bytes): Option<(bytes, bytes)> {
    if |s| < 2 || s[0] as int != 5 || |s| < 2 + s[1] as int then None
    else Some((s[2..2 + s[1] as int], s[2 + s[1] as int..]))
  }

  /** All that a SOCKS5 handshake sends: an offer of no authentication alone, then the request. */
  lemma {:induction false} Socks5Conversation(host: bytes, port: nat)
    requires |host| < 256 && port < 65536
    ensures var hello := DecodeHello(Request(Socks5, host, port));
            && hello.Some? && hello.value.0 == [0 as char]
            && Decode5(hello.value.1) == Some((host, port))
  {
    Socks5RoundTrip(host, port);
    var s := Request(Socks5, host, port);
    assert s[2..3] == [0 as char] && s[3..] == Request5(host, port);
  }

  lemma {:induction false} DecimalValue(n: nat)
    ensures AllDigits(Decimal(n)) && Value(Decimal(n)) == n
  {
    var s := Decimal(n);
    if n >= 10 {
      DecimalValue(n / 10);
      assert s[..|s| - 1] == Decimal(n / 10);
    } else {
      assert s[..0] == [];
    }
  }

  /** The position of the first `ch`, or the length. */
  function First(s: bytes, ch: byte): (i: nat)
    ensures i <= |s|
  {
    if s == [] || s[0] == ch then 0 else 1 + First(s[1..], ch)
  }

  /** The position after the last `ch`, or 0. */
  function AfterLast(s: bytes, ch: byte): (i: nat)
    ensures i <= |s|
  {
    if s == [] then 0
    else if s[|s| - 1] == ch then |s|
    else AfterLast(s[..|s| - 1], ch)
  }

  /** An authority: a host, a colon and a decimal port. */
  function DecodeAuthority(s: bytes): Option<(bytes, nat)> {
    var k := AfterLast(s, ':');
    if k == 0 || k == |s| || !AllDigits(s[k..]) then None
    else
      var port := Value(s[k..]);
      if port < 0 then None else Some((s[..k - 1], port))
  }

  /** A CONNECT request with a Host line that names the same authority, and no other header. */
  function DecodeHttp(s: bytes): Option<(bytes, nat)> {
    if |s| < 8 || s[..8] != "CONNECT " then None
    else
      var rest := s[8..];
      var n := First(rest, ' ');
      if rest[n..] != " HTTP/1.1\r\nHost: " + (rest[..n] + "\r\n\r\n") then None
      else DecodeAuthority(rest[..n])
  }

  lemma {:induction false} FirstOf(s: bytes, ch: byte, rest: bytes)
    requires ch !in s
    ensures First(s + ([ch] + rest), ch) == |s|
  {
    if s != [] {
      assert (s + ([ch] + rest))[1..] == s[1..] + ([ch] + rest);
      FirstOf(s[1..], ch, rest);
    }
  }

  lemma {:induction false} AfterLastOf(s: bytes, ch: byte, rest: bytes)
    requires ch !in rest
    ensures AfterLast(s + [ch] + rest, ch) == |s| + 1
  {
    var t := s + [ch] + rest;
    if rest == [] {
      assert t[|t| - 1] == ch;
    } else {
      var n := |rest| - 1;
      assert t[..|t| - 1] == s + [ch] + rest[..n] && t[|t| - 1] == rest[n];
      AfterLastOf(s, ch, rest[..n]);
    }
  }

  lemma {:induction false} AuthorityRoundTrip(host: bytes, port: nat)
    ensures DecodeAuthority(host + ":" + Decimal(port)) == Some((host, port))
  {
    var digits := Decimal(port);
    var s := host + ":" + digits;
    DecimalValue(port);
    assert ':' !in digits;
    AfterLastOf(host, ':', digits);
    assert s[|host| + 1..] == digits && s[..|host|] == host;
  }

  lemma {:induction false} RequestParts(host: bytes, port: nat)
    ensures var authority := host + ":" + Decimal(port);
            RequestHttp(host, port)
            == "CONNECT " + (authority + (" HTTP/1.1\r\nHost: " + (authority + "\r\n\r\n")))
  {
    var authority := host + ":" + Decimal(port);
    var line: bytes, head: bytes := " HTTP/1.1\r\n", "Host: ";
    assert line + head == " HTTP/1.1\r\nHost: ";
    assert CRLF + CRLF == "\r\n\r\n";
    assert RequestLine(host, port) == "CONNECT " + authority + line;
    assert HostLine(host, port) == head + authority + CRLF;
    RegroupRequest("CONNECT ", authority, line, head, CRLF);
  }

  lemma RegroupRequest(verb: bytes, authority: bytes, line: bytes, head: bytes, end: bytes)
    ensures (verb + authority + line) + (head + authority + end) + end
         == verb + (authority + ((line + head) + (authority + (end + end))))
  {
  }

  /** The CONNECT request asks for this host and this port, for every host a request line can carry. */
  lemma {:induction false} HttpRoundTrip(host: bytes, port: nat)
    requires ' ' !in host
    ensures DecodeHttp(RequestHttp(host, port)) == Some((host, port))
  {
    var authority := host + ":" + Decimal(port);
    var tail := "HTTP/1.1\r\nHost: " + (authority + "\r\n\r\n");
    var rest := authority + ([' '] + tail);
    RequestParts(host, port);
    DecimalValue(port);
    assert [' '] + tail == " HTTP/1.1\r\nHost: " + (authority + "\r\n\r\n");
    assert ' ' !in authority;
    FirstOf(authority, ' ', tail);
    var s := RequestHttp(host, port);
    assert s == "CONNECT " + rest;
    assert s[..8] == "CONNECT " && s[8..] == rest;
    assert rest[..|authority|] == authority && rest[|authority|..] == [' '] + tail;
    AuthorityRoundTrip(host, port);
  }
}
