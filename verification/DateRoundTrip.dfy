/** Every second of the 32-bit range, printed as a Date header, is read back exactly. */
module DateRoundTrip {
  import opened Settings
  import opened Scanner
  import opened Transport
  import opened Calendar
  import opened HttpDate

  function D(n: int): char
    requires 0 <= n < 10
  {
    (48 + n) as char
  }

  function Two(n: int): string
    requires 0 <= n < 100
  {
    [D(n / 10), D(n % 10)]
  }

  function Four(n: int): string
    requires 0 <= n < 10000
  {
    [D(n / 1000), D(n / 100 % 10), D(n / 10 % 10), D(n % 10)]
  }

  /** Day of the month as asctime() prints it: two columns, padded with a blank. */
  function Padded(n: int): string
    requires 0 <= n < 100
  {
    if n < 10 then [D(n)] else Two(n)
  }

  predicate Printable(d: Date) {
    && 0 <= d.month < 12 && 1 <= d.day <= 31 && 0 <= d.year < 10000
    && 0 <= d.hour < 24 && 0 <= d.minute < 60 && 0 <= d.second < 60
  }

  function PrintClock(d: Date, rest: string): string
    requires Printable(d)
  {
    Two(d.hour) + (":" + (Two(d.minute) + (":" + (Two(d.second) + rest))))
  }

  /** "06 Nov 1994 08:49:37 GMT" */
  function PrintRfc1123(d: Date): string
    requires Printable(d)
  {
    Two(d.day) + (" " + (MONTHS[d.month] + (" " + (Four(d.year) + (" " + PrintClock(d, " GMT"))))))
  }

  /** "Nov  6 08:49:37 1994" */
  function PrintAsctime(d: Date): string
    requires Printable(d)
  {
    var blanks := if d.day < 10 then "  " else " ";
    MONTHS[d.month] + (blanks + (Padded(d.day) + (" " + PrintClock(d, " " + Four(d.year)))))
  }

  lemma TwoValue(n: int)
    requires 0 <= n < 100
    ensures AllDigits(Two(n)) && Value(Two(n)) == n
  {
    assert Two(n)[..1] == [D(n / 10)] && [D(n / 10)][..0] == [];
    assert Value([D(n / 10)]) == n / 10;
  }

  lemma PaddedValue(n: int)
    requires 0 <= n < 100
    ensures AllDigits(Padded(n)) && Value(Padded(n)) == n
  {
    if n < 10 { assert [D(n)][..0] == []; } else { TwoValue(n); }
  }

  lemma FourValue(n: int)
    requires 0 <= n < 10000
    ensures AllDigits(Four(n)) && Value(Four(n)) == n
  {
    var a, b, c := n / 1000, n / 100 % 10, n / 10 % 10;
    assert Four(n)[..3] == [D(a), D(b), D(c)] && [D(a), D(b), D(c)][..2] == [D(a), D(b)];
    assert [D(a), D(b)][..1] == [D(a)] && [D(a)][..0] == [];
    assert Value([D(a)]) == a;
    assert Value([D(a), D(b)]) == 10 * a + b;
    assert Value([D(a), D(b), D(c)]) == 100 * a + 10 * b + c;
    FourDigits(n);
  }

  lemma FourDigits(n: int)
    requires 0 <= n < 10000
    ensures n == 1000 * (n / 1000) + 100 * (n / 100 % 10) + 10 * (n / 10 % 10) + n % 10
  {
    assert n / 100 == n / 10 / 10 && n / 1000 == n / 100 / 10;
  }

  lemma MonthIsFound(m: nat)
    requires m < 12
    ensures MonthIndex(MONTHS[m], 0) == m
  {
    assert MonthIndex(MONTHS[m], m) == m;
  }

  lemma MonthWord(m: nat)
    requires m < 12
    ensures |MONTHS[m]| == 3 && forall i :: 0 <= i < 3 ==> !IsSpace(MONTHS[m][i])
    ensures !IsDigit(MONTHS[m][0]) && MONTHS[m][0] != '-' && MONTHS[m][0] != '+'
  {
  }

  /** The clock part of all three formats. */
  lemma {:induction false} ScanClock(more: Format, d: Date, rest: string)
    requires Printable(d) && (rest == [] || !IsDigit(rest[0]))
    ensures Scan(Clock(more), PrintClock(d, rest))
         == [Num(d.hour)] + ([Num(d.minute)] + ([Num(d.second)] + Scan(more, rest)))
  {
    var s2 := Two(d.second) + rest;
    var s1 := Two(d.minute) + (":" + s2);
    TwoValue(d.hour);
    TwoValue(d.minute);
    TwoValue(d.second);
    ScanInt(Lit(':', Int(Lit(':', Int(more)))), Two(d.hour), ":" + s1);
    ScanLit(Int(Lit(':', Int(more))), ':', s1);
    ScanInt(Lit(':', Int(more)), Two(d.minute), ":" + s2);
    ScanLit(Int(more), ':', s2);
    ScanInt(more, Two(d.second), rest);
  }

  predicate MonthLike(month: string) {
    |month| == 3 && forall i :: 0 <= i < 3 ==> !IsSpace(month[i])
  }

  predicate Number(s: string) {
    s != [] && AllDigits(s)
  }

  lemma {:induction false} ScanDayFirst(day: string, month: string, year: string, rest: string, more: Format)
    requires Number(day) && MonthLike(month) && Number(year) && rest != [] && !IsSpace(rest[0])
    ensures Scan(Int(Space(Word(3, Space(Int(Space(more)))))), day + (" " + (month + (" " + (year + (" " + rest))))))
         == [Num(Value(day))] + ([Str(month)] + ([Num(Value(year))] + Scan(more, rest)))
  {
    var s2 := year + (" " + rest);
    var s1 := month + (" " + s2);
    ScanInt(Space(Word(3, Space(Int(Space(more))))), day, " " + s1);
    ScanSpace(Word(3, Space(Int(Space(more)))), " ", s1);
    ScanWord(Space(Int(Space(more))), month, " " + s2);
    ScanSpace(Int(Space(more)), " ", s2);
    ScanInt(Space(more), year, " " + rest);
    ScanSpace(more, " ", rest);
  }

  lemma {:induction false} ScanMonthFirst(month: string, blanks: string, day: string, rest: string, more: Format)
    requires MonthLike(month) && Number(day) && rest != [] && !IsSpace(rest[0])
    requires forall i :: 0 <= i < |blanks| ==> IsSpace(blanks[i])
    ensures Scan(Word(3, Space(Int(Space(more)))), month + (blanks + (day + (" " + rest))))
         == [Str(month)] + ([Num(Value(day))] + Scan(more, rest))
  {
    var s1 := day + (" " + rest);
    ScanWord(Space(Int(Space(more))), month, blanks + s1);
    ScanSpace(Int(Space(more)), blanks, s1);
    ScanInt(Space(more), day, " " + rest);
    ScanSpace(more, " ", rest);
  }

  lemma ClockStarts(d: Date, rest: string)
    requires Printable(d)
    ensures |PrintClock(d, rest)| == 8 + |rest| && !IsSpace(PrintClock(d, rest)[0])
  {
  }

  lemma {:induction false} ScanRfc1123(d: Date)
    requires Printable(d)
    ensures Scan(RFC1123, PrintRfc1123(d))
         == [Num(d.day)] + ([Str(MONTHS[d.month])] + ([Num(d.year)]
            + ([Num(d.hour)] + ([Num(d.minute)] + ([Num(d.second)] + [])))))
  {
    MonthWord(d.month);
    TwoValue(d.day);
    FourValue(d.year);
    ClockStarts(d, " GMT");
    ScanDayFirst(Two(d.day), MONTHS[d.month], Four(d.year), PrintClock(d, " GMT"), Clock(Done));
    ScanClock(Done, d, " GMT");
  }

  lemma {:induction false} ScanAsctime(d: Date)
    requires Printable(d)
    ensures Scan(ASCTIME, PrintAsctime(d))
         == [Str(MONTHS[d.month])] + ([Num(d.day)]
            + ([Num(d.hour)] + ([Num(d.minute)] + ([Num(d.second)] + [Num(d.year)]))))
  {
    var blanks := if d.day < 10 then "  " else " ";
    var year := Four(d.year);
    var last := Space(Int(Done));
    MonthWord(d.month);
    PaddedValue(d.day);
    FourValue(d.year);
    ClockStarts(d, " " + year);
    ScanMonthFirst(MONTHS[d.month], blanks, Padded(d.day), PrintClock(d, " " + year), Clock(last));
    ScanClock(last, d, " " + year);
    ScanLast(year);
  }

  lemma {:induction false} ScanLast(year: string)
    requires Number(year)
    ensures Scan(Space(Int(Done)), " " + year) == [Num(Value(year))]
  {
    ScanSpace(Int(Done), " ", year);
    assert year + [] == year;
    ScanInt(Done, year, []);
  }

  lemma {:induction false} NoNumber(s: string, more: Format)
    requires s != [] && !IsSpace(s[0]) && !IsDigit(s[0]) && s[0] != '-' && s[0] != '+'
    ensures Scan(Int(more), s) == []
  {
    assert SkipSpace(s) == s;
  }

  /** No character that ends a line or a C string. */
  predicate Plain(s: string) {
    '\r' !in s && NUL !in s
  }

  /** A weekday as it stands before the date: "Sun," or "Sun". */
  predicate Weekday(w: string) {
    1 <= |w| <= 7 && Plain(w) && ' ' !in w
  }

  lemma {:induction false} SkipToBlankOf(w: string, rest: string)
    requires ' ' !in w
    ensures SkipToBlank(w + (" " + rest)) == " " + rest
  {
    if w == [] {
      assert w + (" " + rest) == " " + rest;
    } else {
      assert (w + (" " + rest))[1..] == w[1..] + (" " + rest);
      SkipToBlankOf(w[1..], rest);
    }
  }

  lemma {:induction false} SkipsWeekday(w: string, body: string)
    requires w != [] && ' ' !in w && body != [] && body[0] != ' '
    ensures SkipBlanks(SkipToBlank(SkipBlanks(w + (" " + body)))) == body
  {
    var s := w + (" " + body);
    assert SkipBlanks(s) == s;
    SkipToBlankOf(w, body);
    assert (" " + body)[1..] == body;
    assert SkipBlanks(" " + body) == body;
  }

  /** The body of a header in one of the two forms that carry a four-digit year. */
  predicate Rendering(d: Date, body: string)
    requires Printable(d)
  {
    body == PrintRfc1123(d) || body == PrintAsctime(d)
  }

  lemma RenderingLength(d: Date, body: string)
    requires Printable(d) && Rendering(d, body)
    ensures 20 <= |body| <= 24 && body[0] != ' '
    ensures body == PrintAsctime(d) ==> body[0] == MONTHS[d.month][0]
  {
    MonthWord(d.month);
    ClockStarts(d, " GMT");
    ClockStarts(d, " " + Four(d.year));
  }

  function Fields(p: Parsed): seq<Field> {
    [Num(p.day)] + ([Str(p.month)] + ([Num(p.year)] + ([Num(p.hour)] + ([Num(p.minute)] + ([Num(p.second)] + [])))))
  }

  lemma FirstFormat(g: seq<Field>, h: seq<Field>, p: Parsed)
    ensures Choose(Fields(p), g, h) == Some(p)
  {
    assert DayFirst(Fields(p));
  }

  lemma SecondFormat(f: seq<Field>, h: seq<Field>, p: Parsed)
    requires |f| != 6
    ensures Choose(f, Fields(p), h) == Some(p)
  {
    assert DayFirst(Fields(p));
  }

  lemma ThirdFormat(p: Parsed)
    ensures Choose([], [], [Str(p.month)] + ([Num(p.day)]
                   + ([Num(p.hour)] + ([Num(p.minute)] + ([Num(p.second)] + [Num(p.year)]))))) == Some(p)
  {
  }

  lemma {:induction false} NoDayFirst(s: string)
    requires s != [] && !IsSpace(s[0]) && !IsDigit(s[0]) && s[0] != '-' && s[0] != '+'
    ensures Scan(RFC1123, s) == [] == Scan(RFC850, s)
  {
    NoNumber(s, Space(Word(3, Space(Int(Space(Clock(Done)))))));
    NoNumber(s, Lit('-', Word(3, Lit('-', Int(Space(Clock(Done)))))));
  }

  lemma {:induction false} ParsesRendering(d: Date, body: string)
    requires Printable(d) && Rendering(d, body)
    ensures ParseDate(body) == Some(Parsed(d.day, MONTHS[d.month], d.year, d.hour, d.minute, d.second))
  {
    var p := Parsed(d.day, MONTHS[d.month], d.year, d.hour, d.minute, d.second);
    if body == PrintRfc1123(d) {
      ScanRfc1123(d);
      FirstFormat(Scan(RFC850, body), Scan(ASCTIME, body), p);
    } else {
      ScanAsctime(d);
      MonthWord(d.month);
      RenderingLength(d, body);
      NoDayFirst(body);
      ThirdFormat(p);
    }
  }

  lemma YearInRange(t: nat)
    requires t <= 0xffff_ffff
    ensures Printable(GmTime(t)) && 1970 <= GmTime(t).year <= 2106
  {
    TimeGmInverts(t);
    assert t / DAY <= 49710;
  }

  /** For every 32-bit time, in either form and after any weekday. */
  lemma {:induction false} DateRoundTrips(t: nat, w: string, body: string)
    requires t <= 0xffff_ffff && Weekday(w) && Printable(GmTime(t)) && Rendering(GmTime(t), body)
    ensures DateLine(PREFIX + (w + (" " + body))) == (1, t)
  {
    var d, line := GmTime(t), PREFIX + (w + (" " + body));
    YearInRange(t);
    TimeGmInverts(t);
    MonthIsFound(d.month);
    ParsesRendering(d, body);
    RenderingLength(d, body);
    SkipsWeekday(w, body);
    assert line[..8] == PREFIX && line[8..] == w + (" " + body);
    assert Date(d.year, d.month, d.day, d.hour, d.minute, d.second) == d;
  }

  lemma PlainClock(d: Date, rest: string)
    requires Printable(d) && Plain(rest)
    ensures Plain(PrintClock(d, rest))
  {
  }

  lemma PlainParts(a: string, b: string, c: string, d: string)
    requires Plain(a) && Plain(b) && Plain(c) && Plain(d)
    ensures Plain(a + (" " + (b + (" " + (c + (" " + d))))))
    ensures Plain(a + (b + (c + (" " + d))))
  {
  }

  lemma PlainNumbers(d: Date)
    requires Printable(d)
    ensures Plain(Two(d.day)) && Plain(Padded(d.day)) && Plain(Four(d.year)) && Plain(" " + Four(d.year))
  {
  }

  lemma PlainMonth(m: nat)
    requires m < 12
    ensures Plain(MONTHS[m])
  {
    MonthWord(m);
  }

  lemma PlainRfc1123(d: Date)
    requires Printable(d)
    ensures Plain(PrintRfc1123(d))
  {
    PlainMonth(d.month);
    PlainNumbers(d);
    PlainClock(d, " GMT");
    PlainParts(Two(d.day), MONTHS[d.month], Four(d.year), PrintClock(d, " GMT"));
  }

  lemma PlainAsctime(d: Date)
    requires Printable(d)
    ensures Plain(PrintAsctime(d))
  {
    var year, blanks := " " + Four(d.year), if d.day < 10 then "  " else " ";
    PlainMonth(d.month);
    PlainNumbers(d);
    PlainClock(d, year);
    assert Plain(blanks);
    PlainParts(MONTHS[d.month], blanks, Padded(d.day), PrintClock(d, year));
  }

  lemma PlainRendering(d: Date, body: string)
    requires Printable(d) && Rendering(d, body)
    ensures Plain(body)
  {
    if body == PrintRfc1123(d) { PlainRfc1123(d); } else { PlainAsctime(d); }
  }

  lemma FirstAt(s: bytes, pat: bytes, i: nat, k: nat)
    requires i <= k && At(s, pat, k) && forall j :: i <= j < k ==> !At(s, pat, j)
    ensures Find(s, pat, i) == Some(k)
  {
  }

  lemma {:induction false} FindsPrefix(head: bytes, rest: bytes)
    requires forall i :: 0 <= i ==> !At(head, PREFIX, i)
    ensures Find(head + (PREFIX + rest), PREFIX, 0) == Some(|head|)
  {
    var s, n := head + (PREFIX + rest), |head|;
    assert s[n..n + 8] == PREFIX;
    forall i | 0 <= i < n ensures !At(s, PREFIX, i) {
      if i + 8 <= n {
        assert s[i..i + 8] == head[i..i + 8];
        assert !At(head, PREFIX, i);
      } else if i + 8 <= |s| {
        assert s[i..i + 8][n - i] == '\r' != PREFIX[n - i];
      }
    }
    FirstAt(s, PREFIX, 0, n);
  }

  lemma {:induction false} FindsEnd(before: bytes, line: bytes)
    requires '\r' !in line
    ensures Find(before + (line + CRLF), CRLF, |before|) == Some(|before| + |line|)
  {
    var s, end := before + (line + CRLF), |before| + |line|;
    assert s[end..end + 2] == CRLF;
    forall j | |before| <= j < end ensures !At(s, CRLF, j) {
      if j + 2 <= |s| { assert s[j..j + 2][0] == line[j - |before|] != '\r'; }
    }
    FirstAt(s, CRLF, |before|, end);
  }

  /** The first Date header of a response is the one that is found, up to the end of its line. */
  lemma {:induction false} LocatesHeader(head: bytes, line: bytes)
    requires (forall i :: 0 <= i ==> !At(head, PREFIX, i)) && Plain(line)
    ensures Locate(head + (PREFIX + line) + CRLF) == Some(PREFIX + line)
  {
    var s := head + (PREFIX + line) + CRLF;
    assert s == head + (PREFIX + (line + CRLF));
    FindsPrefix(head, line + CRLF);
    var before: bytes, value: bytes := head + PREFIX[..2], PREFIX[2..] + line;
    assert s == before + (value + CRLF);
    FindsEnd(before, value);
    assert s[|head|..|before| + |value|] == PREFIX + line;
  }

  lemma {:induction false} CarryAlong(head: bytes, line: bytes, tail: bytes)
    ensures var s := head + line + CRLF; (s + tail)[..|s|] == s && |s| == |head| + |line| + 2
  {
  }

  /** A response is judged by its first Date header. */
  lemma {:induction false} ReadsHeader(head: bytes, line: bytes, tail: bytes)
    requires (forall i :: 0 <= i ==> !At(head, PREFIX, i)) && Plain(line)
    requires |head| + |line| + 10 < MAX_HEADERS_SIZE
    ensures OneShot(head + (PREFIX + line) + CRLF + tail) == DateLine(PREFIX + line)
  {
    var s := head + (PREFIX + line) + CRLF;
    LocatesHeader(head, line);
    CarryAlong(head, PREFIX + line, tail);
    OneShotFound(s + tail, |s|);
    CStrWhole(PREFIX + line);
  }

  /** End to end: a response whose first Date header prints `t` yields `t` from any chunking. */
  lemma {:induction false} ResponseRoundTrips(t: nat, head: bytes, w: bytes, body: bytes, tail: bytes)
    requires t <= 0xffff_ffff && Weekday(w) && Printable(GmTime(t)) && Rendering(GmTime(t), body)
    requires forall i :: 0 <= i ==> !At(head, PREFIX, i)
    requires |head| + |w| + |body| + 11 < MAX_HEADERS_SIZE
    ensures OneShot(head + (PREFIX + (w + (" " + body))) + CRLF + tail) == (1, t)
  {
    PlainRendering(GmTime(t), body);
    PlainLine(w, body);
    ReadsHeader(head, w + (" " + body), tail);
    DateRoundTrips(t, w, body);
  }

  lemma PlainLine(w: string, body: string)
    requires Plain(w) && Plain(body)
    ensures Plain(w + (" " + body))
  {
  }
}
