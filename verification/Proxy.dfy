/** The proxy filter: the handshake runs on the first read or write, then bytes pass through. */
module Proxy {
  import opened Transport
  import opened Scanner
  import opened Handshake

  /** The filter and its transport as values. */
  datatype Wire = Wire(connected: bool, input: bytes, output: bytes)

  /** Where the filter is told to connect. */
  datatype Target = Target(kind: Kind, host: bytes, port: nat)
  {
    predicate Valid() {
      ValidHost(host) && port < 65536
    }
  }

  /** One handshake on what the transport holds. */
  function Attempt(t: Target, input: bytes): (o: Outcome)
    requires t.Valid()
    ensures o.used <= |input|
  {
    Connect(t.kind, t.host, t.port, input)
  }

  function AfterAttempt(w: Wire, o: Outcome): Wire
    requires o.used <= |w.input|
  {
    Wire(o.ok, w.input[o.used..], w.output + o.sent)
  }

  /** The wire once a call has made sure of the handshake, should it come out as `o`. */
  function Ready(w: Wire, o: Outcome): Wire
    requires o.used <= |w.input|
  {
    if w.connected then w else AfterAttempt(w, o)
  }

  /** proxy_write: the wire afterwards and the count returned. */
  function Put(w: Wire, o: Outcome, data: bytes): (r: (Wire, nat))
    requires o.used <= |w.input|
    ensures r.1 <= |data|
  {
    var v := Ready(w, o);
    if data == [] then (w, 0)
    else if !v.connected then (v, 0)
    else (v.(output := v.output + data), |data|)
  }

  /** proxy_read: the wire afterwards and the bytes delivered. */
  function Get(w: Wire, o: Outcome, size: int): (Wire, bytes)
    requires o.used <= |w.input|
  {
    var v := Ready(w, o);
    var n := Available(|v.input|, size);
    if !v.connected then (v, []) else (v.(input := v.input[n..]), v.input[..n])
  }

  /** The SOCKS4a request up to the host name, field by field. */
  method Head4a(buf: array<byte>, port: nat)
    requires buf.Length == BUFFER_SIZE && port < 65536
    modifies buf
    ensures buf[..9] == [B(4), B(1)] + PortBytes(port) + [B(0), B(0), B(0), B(1), B(0)]
  {
    buf[0] := B(4);
    buf[1] := B(1);
    CopyInto(buf, 2, PortBytes(port));
    buf[4] := B(0);
    buf[5] := B(0);
    buf[6] := B(0);
    buf[7] := B(1);
    buf[8] := B(0);
  }

  method Fill4a(buf: array<byte>, host: bytes, port: nat) returns (sz: nat)
    requires buf.Length == BUFFER_SIZE && ValidHost(host) && port < 65536
    modifies buf
    ensures sz <= buf.Length && buf[..sz] == Request4a(host, port)
  {
    Head4a(buf, port);
    ghost var head := buf[..9];
    CopyInto(buf, 9, host + [NUL]);
    sz := 9 + |host| + 1;
    assert buf[..sz] == head + (host + [NUL]);
  }

  method Fill5(buf: array<byte>, host: bytes, port: nat) returns (sz: nat)
    requires buf.Length == BUFFER_SIZE && |host| < 256 && port < 65536
    modifies buf
    ensures sz <= buf.Length && buf[..sz] == Request5(host, port)
  {
    buf[0] := B(5);
    buf[1] := B(1);
    buf[2] := B(0);
    buf[3] := B(3);
    buf[4] := B(|host|);
    CopyInto(buf, 5, host);
    sz := 5 + |host|;
    CopyInto(buf, sz, PortBytes(port));
    sz := sz + 2;
  }

  class ProxyBio {
    const next: TestBio
    const target: Target
    var connected: bool

    ghost function View(): Wire
      reads this, next
    {
      Wire(connected, next.input, next.output)
    }

    constructor (next: TestBio, target: Target)
      ensures this.next == next && this.target == target && !connected
    {
      this.next, this.target := next, target;
      connected := false;
    }

    /** One attempt at the handshake leaves the wire as specified and reports whether it connected. */
    twostate predicate Attempted(new r: int)
      requires target.Valid()
      reads this, next
    {
      View() == AfterAttempt(old(View()), Attempt(target, old(next.input))) && r == if connected then 1 else 0
    }

    method Socks4aConnect() returns (r: int)
      requires target.Valid() && target.kind == Socks4a && !connected
      modifies this`connected, next
      ensures Attempted(r)
    {
      var buf := new byte[BUFFER_SIZE];
      var sz := Fill4a(buf, target.host, target.port);
      r := next.Write(buf[..sz]);
      if r != sz { return 0; }
      r := next.Read(buf, 0, 8);
      if r != 8 { return 0; }
      if buf[1] == SUCCESS4 {
        connected := true;
        return 1;
      }
      return 0;
    }

    /** Offers the only method known, no authentication. */
    method Greet5(buf: array<byte>) returns (ok: bool)
      requires buf.Length == BUFFER_SIZE
      modifies next, buf
      ensures next.output == old(next.output) + Hello5
      ensures ok <==> |old(next.input)| >= 2 && old(next.input)[..2] == [B(5), B(0)]
      ensures next.input == old(next.input)[Available(|old(next.input)|, 2)..]
    {
      buf[0] := B(5);
      buf[1] := B(1);
      buf[2] := B(0);
      assert buf[..3] == Hello5;
      var r := next.Write(buf[..3]);
      if r != 3 { return false; }
      r := next.Read(buf, 0, 2);
      if r != 2 { return false; }
      assert buf[..2] == old(next.input)[..2];
      ok := !(buf[0] != B(5) || buf[1] != B(0));
    }

    method Socks5Connect() returns (r: int)
      requires target.Valid() && target.kind == Socks5 && !connected
      modifies this`connected, next
      ensures Attempted(r)
    {
      if |target.host| >= 256 { return 0; }
      ghost var input, output, request := next.input, next.output, Request5(target.host, target.port);
      var buf := new byte[BUFFER_SIZE];
      var ok := Greet5(buf);
      if !ok {
        assert Attempt(target, input) == Outcome(false, Available(|input|, 2), Hello5);
        return 0;
      }
      var sz := Fill5(buf, target.host, target.port);
      r := next.Write(buf[..sz]);
      if r != sz { return 0; }
      ok := ReadReply5(buf);
      assert Attempt(target, input) == Outcome(ok, 2 + Reply5(input[2..]).1, Hello5 + request);
      assert output + Hello5 + request == output + (Hello5 + request);
      if !ok { return 0; }
      connected := true;
      return 1;
    }

    /** The reply up to the address type, then the address it announces. */
    method ReadReply5(buf: array<byte>) returns (ok: bool)
      requires buf.Length == BUFFER_SIZE
      modifies next`input, buf
      ensures ok == Reply5(old(next.input)).0
      ensures next.input == old(next.input)[Reply5(old(next.input)).1..]
    {
      var r := next.Read(buf, 0, 4);
      if r != 4 { return false; }
      assert buf[..4] == old(next.input)[..4];
      if buf[0] != B(5) || buf[1] != B(0) { return false; }
      if buf[3] == B(3) {
        r := next.Read(buf, 4, 1);
        if r != 1 { return false; }
        ok := Drain(buf, buf[4] as int + 2);
        return;
      } else if buf[3] == B(1) {
        r := next.Read(buf, 4, 6);
        if r != 6 { return false; }
      }
      return true;
    }

    /** Takes exactly `length` bytes off the transport, or all there are. */
    method Drain(buf: array<byte>, length: nat) returns (ok: bool)
      requires 5 + length <= buf.Length
      modifies next`input, buf
      ensures ok <==> length <= |old(next.input)|
      ensures next.input == old(next.input)[Available(|old(next.input)|, length)..]
    {
      var len := length;
      while len > 0
        invariant 0 <= len <= length
        invariant length - len <= |old(next.input)|
        invariant next.input == old(next.input)[length - len..]
      {
        var r := next.Read(buf, 5, Least(len, buf.Length));
        if r <= 0 { return false; }
        len := len - Least(len, r);
      }
      return true;
    }

    /** sock_gets on the transport: byte by byte into a buffer that keeps room for the terminator. */
    method SockGets(buf: array<byte>) returns (failed: bool, length: nat)
      requires buf.Length == LINE_SIZE
      modifies next`input, buf
      ensures var (ok, n) := Gets(old(next.input));
              && failed == !ok
              && next.input == old(next.input)[n..]
              && (ok ==> length == n && n < buf.Length && buf[..n] == old(next.input)[..n] && buf[n] == NUL)
    {
      var cell := new byte[1];
      length := 0;
      var sz := buf.Length;
      while true
        invariant sz == buf.Length - length && 1 <= sz
        invariant length <= |old(next.input)| && next.input == old(next.input)[length..]
        invariant buf[..length] == old(next.input)[..length]
        invariant '\n' !in old(next.input)[..length]
        decreases sz
      {
        var r := next.Read(cell, 0, 1);
        if r <= 0 || sz <= 1 { break; }
        ghost var before := buf[..length];
        buf[length] := cell[0];
        assert buf[..length] == before;
        assert old(next.input)[..length + 1] == before + [cell[0]];
        length := length + 1;
        sz := sz - 1;
        if cell[0] == '\n' {
          buf[length] := NUL;
          LineFeedAt(old(next.input), length - 1);
          return false, length;
        }
      }
      return true, length;
    }

    /** Reads header lines until one is empty. */
    method SkipHeaders(buf: array<byte>) returns (found: bool)
      requires buf.Length == LINE_SIZE
      modifies next`input, buf
      ensures found == Headers(old(next.input)).0
      ensures next.input == AfterHeaders(old(next.input))
    {
      while true
        invariant Headers(next.input).0 == Headers(old(next.input)).0
        invariant AfterHeaders(next.input) == AfterHeaders(old(next.input))
        decreases |next.input|
      {
        ghost var input := next.input;
        HeadersStep(input);
        var failed, n := SockGets(buf);
        if failed { return false; }
        GotLine(input);
        EmptyLine(input[..n]);
        if CStr(buf[..n]) == CRLF { return true; }
        SkipLine(input);
      }
    }

    method SendHttpRequest() returns (ok: bool)
      requires target.Valid()
      modifies next`output
      ensures ok && next.output == old(next.output) + RequestHttp(target.host, target.port)
    {
      RequestFits(target.host, target.port);
      var line := RequestLine(target.host, target.port);
      var r := next.Write(line);
      if r != |line| { return false; }
      line := HostLine(target.host, target.port);
      r := next.Write(line);
      if r != |line| { return false; }
      r := next.Write(CRLF);
      return r == 2;
    }

    method HttpConnect() returns (r: int)
      requires target.Valid() && target.kind == Http && !connected
      modifies this`connected, next
      ensures Attempted(r)
    {
      var buf := new byte[LINE_SIZE];
      var ok := SendHttpRequest();
      if !ok { return 0; }
      var failed, n := SockGets(buf);
      if failed { return 0; }
      if !Success(buf[..n]) { return 0; }
      var found := SkipHeaders(buf);
      if !found { return 0; }
      connected := true;
      return 1;
    }

    method DoConnect() returns (r: int)
      requires target.Valid() && !connected
      modifies this`connected, next
      ensures Attempted(r)
    {
      match target.kind
      case Socks4a => r := Socks4aConnect();
      case Socks5 => r := Socks5Connect();
      case Http => r := HttpConnect();
    }

    method Write(data: bytes) returns (r: int)
      requires target.Valid()
      modifies this`connected, next
      ensures (View(), r) == Put(old(View()), Attempt(target, old(next.input)), data)
    {
      if |data| <= 0 { return 0; }
      if !connected {
        r := DoConnect();
        if r == 0 { return 0; }
      }
      r := next.Write(data);
    }

    method Read(buf: array<byte>, size: int) returns (r: int)
      requires target.Valid() && size <= buf.Length
      modifies this`connected, next, buf
      ensures 0 <= r <= buf.Length && (View(), buf[..r]) == Get(old(View()), Attempt(target, old(next.input)), size)
      ensures buf[r..] == old(buf[r..])
    {
      if !connected {
        r := DoConnect();
        if r == 0 { return 0; }
      }
      ghost var input := next.input;
      r := next.Read(buf, 0, size);
      assert buf[..r] == input[..r];
    }
  }

  // ---- stream transparency ----

  /** What a user of the filter and its peer do: write, read, and put bytes on the transport. */
  datatype Call = Write(data: bytes) | Read(size: int) | Feed(data: bytes)

  /** What each failed handshake sent, what they took in all, and both sides of the one that succeeded. */
  datatype Past = Past(lostOut: seq<bytes>, lostIn: bytes, request: bytes, reply: bytes)

  /** The wire, the bytes taken from and delivered to the user, and all the peer has sent. */
  datatype Session = Session(wire: Wire, past: Past, accepted: bytes, delivered: bytes, fed: bytes)

  const Fresh := Session(Wire(false, [], []), Past([], [], [], []), [], [], [])

  function Record(s: Session, o: Outcome): Past
    requires o.used <= |s.wire.input|
  {
    if s.wire.connected then s.past
    else if o.ok then s.past.(request := o.sent, reply := s.wire.input[..o.used])
    else s.past.(lostOut := s.past.lostOut + [o.sent],
         lostIn := s.past.lostIn + s.wire.input[..o.used])
  }

  function Perform(s: Session, o: Outcome, call: Call): Session
    requires o.used <= |s.wire.input|
  {
    match call
    case Feed(data) => s.(wire := s.wire.(input := s.wire.input + data), fed := s.fed + data)
    case Write(data) =>
      var (w, n) := Put(s.wire, o, data);
      s.(wire := w, past := if data == [] then s.past else Record(s, o), accepted := s.accepted + data[..n])
    case Read(size) =>
      var (w, got) := Get(s.wire, o, size);
      s.(wire := w, past := Record(s, o), delivered := s.delivered + got)
  }

  function PerformAll(t: Target, s: Session, calls: seq<Call>): Session
    requires t.Valid()
    decreases |calls|
  {
    if calls == [] then s
    else PerformAll(t, Perform(s, Attempt(t, s.wire.input), calls[0]), calls[1..])
  }

  /** Every byte is handshake or payload, in order, and no payload moves before a handshake succeeds. */
  predicate Conserved(s: Session) {
    && s.wire.output == Concat(s.past.lostOut) + s.past.request + s.accepted
    && s.fed == s.past.lostIn + s.past.reply + s.delivered + s.wire.input
    && (s.past.lostOut == [] ==> s.past.lostIn == [])
    && (!s.wire.connected ==>
          s.past.request == [] && s.past.reply == [] && s.accepted == [] && s.delivered == [])
  }

  /** `reply` is exactly what a successful handshake takes. */
  predicate ExactReply(t: Target, reply: bytes)
    requires t.Valid()
  {
    Attempt(t, reply) == Outcome(true, |reply|, Request(t.kind, t.host, t.port))
  }

  /** Failed handshakes sent a beginning of the request each, the one that succeeded all of it. */
  predicate Answered(t: Target, s: Session)
    requires t.Valid()
  {
    && (forall i :: 0 <= i < |s.past.lostOut| ==> s.past.lostOut[i] <= Request(t.kind, t.host, t.port))
    && (s.wire.connected ==> s.past.request == Request(t.kind, t.host, t.port) && ExactReply(t, s.past.reply))
  }

  lemma {:induction false} ConcatSnoc(parts: seq<bytes>, last: bytes)
    ensures Concat(parts + [last]) == Concat(parts) + last
  {
    if parts == [] {
      assert [last][1..] == [] && parts + [last] == [last];
    } else {
      assert (parts + [last])[1..] == parts[1..] + [last];
      ConcatSnoc(parts[1..], last);
    }
  }

  lemma {:induction false} AttemptConserves(s: Session, o: Outcome)
    requires Conserved(s) && o.used <= |s.wire.input|
    ensures Conserved(s.(wire := Ready(s.wire, o), past := Record(s, o)))
  {
    var input := s.wire.input;
    assert input == input[..o.used] + input[o.used..];
    ConcatSnoc(s.past.lostOut, o.sent);
  }

  lemma {:induction false} WriteConserves(s: Session, o: Outcome, data: bytes)
    requires Conserved(s) && o.used <= |s.wire.input|
    ensures Conserved(Perform(s, o, Write(data)))
  {
    AttemptConserves(s, o);
    assert data[..|data|] == data && data[..0] == [] && s.accepted + [] == s.accepted;
  }

  lemma {:induction false} ReadConserves(s: Session, o: Outcome, size: int)
    requires Conserved(s) && o.used <= |s.wire.input|
    ensures Conserved(Perform(s, o, Read(size)))
  {
    AttemptConserves(s, o);
    var v := Ready(s.wire, o);
    var n := Available(|v.input|, size);
    assert v.input == v.input[..n] + v.input[n..];
  }

  lemma {:induction false} PerformConserves(s: Session, o: Outcome, call: Call)
    requires Conserved(s) && o.used <= |s.wire.input|
    ensures Conserved(Perform(s, o, call))
  {
    match call
    case Write(data) => WriteConserves(s, o, data);
    case Read(size) => ReadConserves(s, o, size);
    case Feed(_) =>
  }

  lemma {:induction false} AttemptExact(t: Target, input: bytes)
    requires t.Valid() && Attempt(t, input).ok
    ensures Attempt(t, input).sent == Request(t.kind, t.host, t.port)
    ensures ExactReply(t, input[..Attempt(t, input).used])
  {
    var o := Attempt(t, input);
    ConnectSends(t.kind, t.host, t.port, input);
    ConnectLocal(t.kind, t.host, t.port, input, []);
    assert input[..o.used] + [] == input[..o.used];
  }

  lemma {:induction false} PerformAnswers(t: Target, s: Session, call: Call)
    requires t.Valid() && Answered(t, s)
    ensures Answered(t, Perform(s, Attempt(t, s.wire.input), call))
  {
    ConnectSends(t.kind, t.host, t.port, s.wire.input);
    if Attempt(t, s.wire.input).ok { AttemptExact(t, s.wire.input); }
  }

  lemma {:induction false} RunConserves(t: Target, s: Session, calls: seq<Call>)
    requires t.Valid() && Conserved(s) && Answered(t, s)
    ensures var v := PerformAll(t, s, calls); Conserved(v) && Answered(t, v)
    decreases |calls|
  {
    if calls != [] {
      var o := Attempt(t, s.wire.input);
      PerformConserves(s, o, calls[0]);
      PerformAnswers(t, s, calls[0]);
      RunConserves(t, Perform(s, o, calls[0]), calls[1..]);
    }
  }

  /** For any sequence of calls on a new filter, including handshakes that fail and are tried again. */
  lemma {:induction false} StreamTransparency(t: Target, calls: seq<Call>)
    requires t.Valid()
    ensures var s := PerformAll(t, Fresh, calls); Conserved(s) && Answered(t, s)
  {
    RunConserves(t, Fresh, calls);
  }

  lemma FirstUse(lostOut: seq<bytes>, request: bytes, accepted: bytes, reply: bytes, delivered: bytes, input: bytes)
    requires lostOut == []
    ensures Concat(lostOut) + request + accepted == request + accepted
    ensures [] + reply + delivered + input == reply + (delivered + input)
  {
  }

  /** When the handshake succeeds on first use: the request, then the payload; the reply, then the payload. */
  lemma {:induction false} FirstUseTransparency(t: Target, calls: seq<Call>)
    requires t.Valid()
    ensures var s := PerformAll(t, Fresh, calls);
            s.wire.connected && s.past.lostOut == [] ==>
              && s.wire.output == Request(t.kind, t.host, t.port) + s.accepted
              && s.fed == s.past.reply + (s.delivered + s.wire.input)
              && ExactReply(t, s.past.reply)
  {
    StreamTransparency(t, calls);
    var s := PerformAll(t, Fresh, calls);
    if s.past.lostOut == [] {
      FirstUse(s.past.lostOut, s.past.request, s.accepted, s.past.reply, s.delivered, s.wire.input);
    }
  }

  /** Every use but an empty write tries the handshake once, and then all of the data goes through at once. */
  lemma {:induction false} UseGetsThrough(t: Target, s: Session, call: Call)
    requires t.Valid() && !call.Feed?
    ensures var o := Attempt(t, s.wire.input);
            var v := Perform(s, o, call);
            var waiting := if s.wire.connected then |s.wire.input| else |s.wire.input| - o.used;
            && (call == Write([]) ==> v == s)
            && (call != Write([]) ==> (v.wire.connected <==> s.wire.connected || o.ok))
            && (v.wire.connected && call.Write? ==> v.accepted == s.accepted + call.data)
            && (v.wire.connected && call.Read? ==>
                  && s.delivered <= v.delivered
                  && |v.delivered| - |s.delivered|
                     == if call.size <= 0 then 0 else if call.size < waiting then call.size else waiting)
  {
    if call.Write? { assert call.data[..|call.data|] == call.data && s.accepted + [] == s.accepted; }
  }

  // ---- the same, read off the object ----

  /** What a call that finds the session at `s` accepts or delivers. */
  method Use(bio: ProxyBio, ghost s: Session, call: Call) returns (accepted: bytes, delivered: bytes, fed: bytes)
    requires bio.target.Valid() && bio.View() == s.wire
    modifies bio, bio.next
    ensures var v := Perform(s, Attempt(bio.target, s.wire.input), call);
            && bio.View() == v.wire
            && v.accepted == s.accepted + accepted && v.delivered == s.delivered + delivered
            && v.fed == s.fed + fed
  {
    accepted, delivered, fed := [], [], [];
    match call
    case Feed(data) =>
      bio.next.AddInput(data);
      fed := data;
    case Write(data) =>
      var n := bio.Write(data);
      accepted := data[..n];
    case Read(size) =>
      var buf := new byte[if size > 0 then size else 0];
      var n := bio.Read(buf, size);
      delivered := buf[..n];
  }

  /** Any sequence of calls on a new filter: what was accepted, delivered and fed, and what is on the wire. */
  method Converse(bio: ProxyBio, calls: seq<Call>)
    returns (accepted: bytes, delivered: bytes, fed: bytes, ghost past: Past)
    requires bio.target.Valid() && bio.View() == Fresh.wire
    modifies bio, bio.next
    ensures Conserved(Session(bio.View(), past, accepted, delivered, fed))
    ensures Answered(bio.target, Session(bio.View(), past, accepted, delivered, fed))
  {
    accepted, delivered, fed := [], [], [];
    ghost var s := Fresh;
    for i := 0 to |calls|
      invariant s == Session(bio.View(), s.past, accepted, delivered, fed)
      invariant Conserved(s) && Answered(bio.target, s)
    {
      ghost var o := Attempt(bio.target, s.wire.input);
      PerformConserves(s, o, calls[i]);
      PerformAnswers(bio.target, s, calls[i]);
      var a, d, f := Use(bio, s, calls[i]);
      accepted, delivered, fed := accepted + a, delivered + d, fed + f;
      s := Perform(s, o, calls[i]);
    }
    past := s.past;
  }
}
