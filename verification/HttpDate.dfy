/** Finding and reading the Date header of an HTTP response (section 3.3.1 of RFC 2616). */
module HttpDate {
  import opened Settings
  import opened Scanner
  import opened Transport
  import opened Calendar

  const MAX_DATE_LINE_LEN: nat := 32
  const MAX_HEADERS_SIZE: nat := 8192
  const PREFIX: bytes := "\r\nDate: "

  const MONTHS: seq<string> :=
    ["Jan", "Feb", "Mar", "Apr", "May", "Jun", "Jul", "Aug", "Sep", "Oct", "Nov", "Dec"]

  // ---- the date line ----

  /** "%d:%d:%d" and what follows. */
  function Clock(more: Format): Format {
    Int(Lit(':', Int(Lit(':', Int(more)))))
  }

  const RFC1123: Format := Int(Space(Word(3, Space(Int(Space(Clock(Done)))))))
  const RFC850: Format := Int(Lit('-', Word(3, Lit('-', Int(Space(Clock(Done)))))))
  const ASCTIME: Format := Word(3, Space(Int(Space(Clock(Space(Int(Done)))))))

  /** Day, month name, year, hour, minute, second. */
  datatype Parsed = Parsed(day: int, month: string, year: int, hour: int, minute: int, second: int)

  predicate DayFirst(f: seq<Field>) {
    |f| == 6 && f[0].Num? && f[1].Str? && f[2].Num? && f[3].Num? && f[4].Num? && f[5].Num?
  }

  predicate MonthFirst(f: seq<Field>) {
    |f| == 6 && f[0].Str? && f[1].Num? && f[2].Num? && f[3].Num? && f[4].Num? && f[5].Num?
  }

  function ParseDate(s: string): Option<Parsed> {
    Choose(Scan(RFC1123, s), Scan(RFC850, s), Scan(ASCTIME, s))
  }

  /** The first of the three formats that yields all six fields. */
  function Choose(f: seq<Field>, g: seq<Field>, h: seq<Field>): Option<Parsed> {
    if DayFirst(f) then Some(Parsed(f[0].n, f[1].s, f[2].n, f[3].n, f[4].n, f[5].n))
    else if DayFirst(g) then Some(Parsed(g[0].n, g[1].s, g[2].n, g[3].n, g[4].n, g[5].n))
    else if MonthFirst(h) then Some(Parsed(h[1].n, h[0].s, h[5].n, h[2].n, h[3].n, h[4].n))
    else None
  }

  function SkipBlanks(s: string): string {
    if s != [] && s[0] == ' ' then SkipBlanks(s[1..]) else s
  }

  function SkipToBlank(s: string): string {
    if s != [] && s[0] != ' ' then SkipToBlank(s[1..]) else s
  }

  /** The position of `name` among the month names from `i` on, or 12. */
  function MonthIndex(name: string, i: nat): (m: nat)
    requires i <= 12
    ensures i <= m <= 12 && (m < 12 ==> MONTHS[m] == name)
    decreases 12 - i
  {
    if i == 12 || MONTHS[i] == name then i else MonthIndex(name, i + 1)
  }

  /** The return code and the time for a date that was or was not recognised. */
  function Interpret(p: Option<Parsed>): (int, nat) {
    if p.None? then (-1, 0)
    else
      var month := MonthIndex(p.value.month, 0);
      if month == 12 then (-2, 0)
      else
        var year := if p.value.year < 100 then p.value.year + 1900 else p.value.year;
        var t := TimeGm(Date(year, month, p.value.day, p.value.hour, p.value.minute, p.value.second));
        if t > 0xffff_ffff || t < 0 then (-1, 0) else (1, t)
  }

  /** handle_date_line on a C string: the return code, and the time when it is 1. */
  function DateLine(line: string): (int, nat) {
    if |line| < 8 || line[..8] != PREFIX then (0, 0)
    else if |line| - 8 > MAX_DATE_LINE_LEN then (-1, 0)
    else Interpret(ParseDate(SkipBlanks(SkipToBlank(SkipBlanks(line[8..])))))
  }

  /** Moves past the day of the week. */
  method SkipWeekday(line: string) returns (rest: string)
    ensures rest == SkipBlanks(SkipToBlank(SkipBlanks(line)))
  {
    rest := line;
    while rest != [] && rest[0] == ' '
      invariant SkipBlanks(rest) == SkipBlanks(line)
      decreases |rest|
    {
      rest := rest[1..];
    }
    ghost var day := rest;
    while rest != [] && rest[0] != ' '
      invariant SkipToBlank(rest) == SkipToBlank(day)
      decreases |rest|
    {
      rest := rest[1..];
    }
    ghost var blanks := rest;
    while rest != [] && rest[0] == ' '
      invariant SkipBlanks(rest) == SkipBlanks(blanks)
      decreases |rest|
    {
      rest := rest[1..];
    }
  }

  /** Searches the table of month names. */
  method FindMonth(name: string) returns (i: nat)
    ensures i == MonthIndex(name, 0)
  {
    i := 0;
    while i < 12 && name != MONTHS[i]
      invariant i <= 12 && MonthIndex(name, i) == MonthIndex(name, 0)
    {
      i := i + 1;
    }
  }

  method InterpretDate(p: Option<Parsed>) returns (code: int, result: nat)
    ensures (code, result) == Interpret(p)
  {
    if p.None? { return -1, 0; }
    var year := p.value.year;
    if year < 100 { year := year + 1900; }
    var month := FindMonth(p.value.month);
    if month == 12 { return -2, 0; }
    var t := TimeGm(Date(year, month, p.value.day, p.value.hour, p.value.minute, p.value.second));
    if t > 0xffff_ffff || t < 0 { return -1, 0; }
    return 1, t;
  }

  method HandleDateLine(line: string) returns (code: int, result: nat)
    ensures (code, result) == DateLine(line)
  {
    if |line| < 8 || line[..8] != PREFIX { return 0, 0; }
    if |line| - 8 > MAX_DATE_LINE_LEN { return -1, 0; }
    var rest := SkipWeekday(line[8..]);
    code, result := InterpretDate(ParseDate(rest));
  }

  // ---- the search ----

  predicate At(s: bytes, pat: bytes, i: nat) {
    i + |pat| <= |s| && s[i..i + |pat|] == pat
  }

  /** memmem() from `i` on. */
  function Find(s: bytes, pat: bytes, i: nat): (r: Option<nat>)
    ensures r.Some? ==> i <= r.value && At(s, pat, r.value)
    ensures forall j :: i <= j && (r.Some? ==> j < r.value) ==> !At(s, pat, j)
    decreases |s| - i
  {
    if i + |pat| > |s| then None
    else if At(s, pat, i) then Some(i)
    else Find(s, pat, i + 1)
  }

  /** The Date line that is complete in `s`, if any. */
  function Locate(s: bytes): (r: Option<bytes>) {
    var i := Find(s, PREFIX, 0);
    if i.None? then None
    else
      var j := Find(s, CRLF, i.value + 2);
      if j.None? then None else Some(s[i.value..j.value])
  }

  /** The answer as one search of the first 8191 bytes of the stream. */
  function OneShot(stream: bytes): (int, nat) {
    var s := stream[..Least(|stream|, MAX_HEADERS_SIZE - 1)];
    var line := Locate(s);
    if line.Some? then DateLine(CStr(line.value))
    else if |stream| < MAX_HEADERS_SIZE - 1 then (0, 0)
    else (-2, 0)
  }

  lemma AtExtends(s: bytes, tail: bytes, pat: bytes, i: nat)
    ensures At(s, pat, i) <==> At(s + tail, pat, i) && i + |pat| <= |s|
  {
    if i + |pat| <= |s| { assert (s + tail)[i..i + |pat|] == s[i..i + |pat|]; }
  }

  lemma {:induction false} FindExtends(s: bytes, tail: bytes, pat: bytes, i: nat)
    requires Find(s, pat, i).Some?
    ensures Find(s + tail, pat, i) == Find(s, pat, i)
  {
    var k, r := Find(s, pat, i).value, Find(s + tail, pat, i);
    AtExtends(s, tail, pat, k);
    AtExtends(s, tail, pat, r.value);
  }

  /** A line found in the bytes read so far is the line of the whole stream. */
  lemma {:induction false} LocateExtends(s: bytes, tail: bytes)
    requires Locate(s).Some?
    ensures Locate(s + tail) == Locate(s)
  {
    var i := Find(s, PREFIX, 0).value;
    FindExtends(s, tail, PREFIX, 0);
    FindExtends(s, tail, CRLF, i + 2);
    var j := Find(s, CRLF, i + 2).value;
    assert (s + tail)[i..j] == s[i..j];
  }

  /** A transport that hands out its bytes in pieces of any size. */
  class ChunkedBio {
    var data: bytes
    var schedule: seq<nat>

    constructor (data: bytes, schedule: seq<nat>)
      ensures this.data == data && this.schedule == schedule
    {
      this.data, this.schedule := data, schedule;
    }

    /** How much arrives is not promised, only that something does while there is any left. */
    method Read(buf: array<byte>, at: nat, size: nat) returns (n: nat)
      requires at + size <= buf.Length
      modifies this, buf
      ensures n <= size && n <= |old(data)|
      ensures n == 0 ==> size == 0 || old(data) == []
      ensures data == old(data)[n..]
      ensures buf[..at] == old(buf[..at]) && buf[at..at + n] == old(data)[..n]
    {
      n := Least(size, |data|);
      if schedule != [] {
        n := Least(n, 1 + schedule[0]);
        schedule := schedule[1..];
      }
      var piece := data[..n];
      forall i | 0 <= i < n { buf[at + i] := piece[i]; }
      assert buf[at..at + n] == piece;
      data := data[n..];
    }
  }

  lemma {:induction false} CStrStops(s: string, tail: string)
    ensures CStr(s + [NUL] + tail) == CStr(s)
  {
    var t := s + [NUL] + tail;
    if s != [] {
      assert t[1..] == s[1..] + [NUL] + tail;
      CStrStops(s[1..], tail);
    }
  }

  /** Looks for a complete Date line in the first `len` bytes and, if there is one, reads it. */
  method TryLine(buf: array<byte>, len: nat) returns (found: bool, code: int, result: nat)
    requires len < buf.Length
    modifies buf
    ensures found <==> Locate(old(buf[..len])).Some?
    ensures found ==> (code, result) == DateLine(CStr(Locate(old(buf[..len])).value))
    ensures !found ==> buf[..len] == old(buf[..len])
  {
    buf[len] := NUL;
    assert buf[..len] == old(buf[..len]);
    found, code, result := false, 0, 0;
    var dateline := Find(buf[..len], PREFIX, 0);
    if dateline.None? { return; }
    var i := dateline.value;
    var endofline := Find(buf[..len], CRLF, i + 2);
    if endofline.None? { return; }
    var j := endofline.value;
    ghost var line := buf[..len][i..j];
    buf[j] := NUL;
    assert CStr(buf[i..]) == CStr(line) by {
      assert buf[i..] == line + [NUL] + buf[j + 1..];
      CStrStops(line, buf[j + 1..]);
    }
    found := true;
    code, result := HandleDateLine(CStr(buf[i..]));
  }

  lemma {:induction false} OneShotFound(stream: bytes, len: nat)
    requires len <= |stream| && len < MAX_HEADERS_SIZE && Locate(stream[..len]).Some?
    ensures OneShot(stream) == DateLine(CStr(Locate(stream[..len]).value))
  {
    var n := Least(|stream|, MAX_HEADERS_SIZE - 1);
    LocateExtends(stream[..len], stream[len..n]);
    assert stream[..len] + stream[len..n] == stream[..n];
  }

  /** However the transport splits the stream, the answer is that of the one search. */
  method ReadHttpDate(bio: ChunkedBio) returns (code: int, result: nat)
    modifies bio
    ensures (code, result) == OneShot(old(bio.data))
  {
    var buf := new byte[MAX_HEADERS_SIZE];
    var len := 0;
    ghost var stream := bio.data;
    while len < buf.Length - 1
      invariant len < buf.Length && len <= |stream|
      invariant buf[..len] == stream[..len] && bio.data == stream[len..]
      invariant Locate(stream[..len]).None?
    {
      var n := bio.Read(buf, len, buf.Length - len - 1);
      if n <= 0 {
        assert stream[..len] == stream;
        return 0, 0;
      }
      assert buf[..len + n] == buf[..len] + buf[len..len + n];
      assert stream[..len + n] == stream[..len] + stream[len..][..n];
      len := len + n;
      var found;
      found, code, result := TryLine(buf, len);
      if found {
        OneShotFound(stream, len);
        return;
      }
    }
    return -2, 0;
  }
}
