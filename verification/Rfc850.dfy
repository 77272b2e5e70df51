/** The third date form, with a two-digit year: exactly when it is read back as the time it prints. */
module Rfc850 {
  import opened Settings
  import opened Scanner
  import opened Calendar
  import opened HttpDate
  import opened DateRoundTrip

  /** "06-Nov-94 08:49:37 GMT" */
  function PrintRfc850(d: Date): string
    requires Printable(d)
  {
    Two(d.day) + ("-" + (MONTHS[d.month] + ("-" + (Two(d.year % 100) + (" " + PrintClock(d, " GMT"))))))
  }

  lemma {:induction false} ScanDashed(day: string, month: string, year: string, rest: string, more: Format)
    requires Number(day) && MonthLike(month) && Number(year) && rest != [] && !IsSpace(rest[0])
    ensures Scan(Int(Lit('-', Word(3, Lit('-', Int(Space(more)))))),
                 day + ("-" + (month + ("-" + (year + (" " + rest))))))
         == [Num(Value(day))] + ([Str(month)] + ([Num(Value(year))] + Scan(more, rest)))
  {
    var s2 := year + (" " + rest);
    var s1 := month + ("-" + s2);
    ScanInt(Lit('-', Word(3, Lit('-', Int(Space(more))))), day, "-" + s1);
    ScanLit(Word(3, Lit('-', Int(Space(more)))), '-', s1);
    ScanWord(Lit('-', Int(Space(more))), month, "-" + s2);
    ScanLit(Int(Space(more)), '-', s2);
    ScanInt(Space(more), year, " " + rest);
    ScanSpace(more, " ", rest);
  }

  lemma {:induction false} NoYear(tail: string, more: Format)
    requires tail != [] && !IsSpace(tail[0]) && !IsDigit(tail[0]) && tail[0] != '-' && tail[0] != '+'
    ensures Scan(Space(Int(more)), tail) == []
  {
    assert [] + tail == tail;
    ScanSpace(Int(more), [], tail);
    NoNumber(tail, more);
  }

  /** The first format takes the dash for the start of a month name and then misses the year. */
  lemma {:induction false} DashedIsNotSpaced(day: string, word: string, tail: string, more: Format)
    requires Number(day) && MonthLike(word) && !IsDigit(word[0])
    requires tail != [] && !IsSpace(tail[0]) && !IsDigit(tail[0]) && tail[0] != '-' && tail[0] != '+'
    ensures Scan(Int(Space(Word(3, Space(Int(more))))), day + (word + tail)) == [Num(Value(day))] + ([Str(word)] + [])
  {
    ScanInt(Space(Word(3, Space(Int(more)))), day, word + tail);
    assert [] + (word + tail) == word + tail;
    ScanSpace(Word(3, Space(Int(more))), [], word + tail);
    ScanWord(Space(Int(more)), word, tail);
    NoYear(tail, more);
  }

  lemma ThirdLetter(m: nat)
    requires m < 12
    ensures !IsDigit(MONTHS[m][2]) && MONTHS[m][2] != '-' && MONTHS[m][2] != '+'
  {
  }

  lemma {:induction false} SplitAtLetter(day: string, month: string, rest: string)
    requires |month| == 3
    ensures day + ("-" + (month + ("-" + rest))) == day + (("-" + month[..2]) + (month[2..] + ("-" + rest)))
  {
    assert "-" + (month + ("-" + rest)) == ("-" + month[..2]) + (month[2..] + ("-" + rest));
  }

  lemma {:induction false} NotRfc1123(day: string, month: string, rest: string)
    requires Number(day) && MonthLike(month)
    requires !IsDigit(month[2]) && month[2] != '-' && month[2] != '+'
    ensures |Scan(RFC1123, day + ("-" + (month + ("-" + rest))))| == 2
  {
    SplitAtLetter(day, month, rest);
    DashedIsNotSpaced(day, "-" + month[..2], month[2..] + ("-" + rest), Space(Clock(Done)));
  }

  lemma {:induction false} ScanRfc850(d: Date, month: string)
    requires Printable(d) && MonthLike(month)
    ensures Scan(RFC850, Two(d.day) + ("-" + (month + ("-" + (Two(d.year % 100) + (" " + PrintClock(d, " GMT")))))))
         == [Num(d.day)] + ([Str(month)] + ([Num(d.year % 100)]
            + ([Num(d.hour)] + ([Num(d.minute)] + ([Num(d.second)] + [])))))
  {
    TwoValue(d.day);
    TwoValue(d.year % 100);
    ClockStarts(d, " GMT");
    ScanDashed(Two(d.day), month, Two(d.year % 100), PrintClock(d, " GMT"), Clock(Done));
    ScanClock(Done, d, " GMT");
  }

  lemma {:induction false} ParsesRfc850(d: Date)
    requires Printable(d)
    ensures ParseDate(PrintRfc850(d)) == Some(Parsed(d.day, MONTHS[d.month], d.year % 100, d.hour, d.minute, d.second))
  {
    var month := MONTHS[d.month];
    MonthWord(d.month);
    ThirdLetter(d.month);
    TwoValue(d.day);
    NotRfc1123(Two(d.day), month, Two(d.year % 100) + (" " + PrintClock(d, " GMT")));
    ScanRfc850(d, month);
    var s := PrintRfc850(d);
    SecondFormat(Scan(RFC1123, s), Scan(ASCTIME, s), Parsed(d.day, month, d.year % 100, d.hour, d.minute, d.second));
  }

  /** A year from 2000 on read as 19xx gives an earlier time. */
  lemma {:induction false} SameTimeIff(d: Date)
    requires d.month < 12 && 1970 <= d.year < 2200
    ensures TimeGm(d.(year := 1900 + d.year % 100)) == TimeGm(d) <==> d.year < 2000
  {
    if d.year >= 2000 { EarlierDays(d.year, 1900 + d.year % 100); }
  }

  lemma EarlierDays(y: int, early: int)
    requires 1900 <= early <= y - 100 && y < 2200
    ensures DaysBeforeYear(early) + 36000 <= DaysBeforeYear(y)
  {
  }

  lemma {:induction false} InterpretsAs(p: Parsed, m: nat)
    requires m < 12 && MonthIndex(p.month, 0) == m && 0 <= p.year < 100
    ensures var t := TimeGm(Date(1900 + p.year, m, p.day, p.hour, p.minute, p.second));
            Interpret(Some(p)) == if 0 <= t <= 0xffff_ffff then (1, t) else (-1, 0)
  {
  }

  lemma {:induction false} InterpretsName(d: Date, year: int)
    requires d.month < 12 && 0 <= year < 100
    ensures var t := TimeGm(d.(year := 1900 + year));
            Interpret(Some(Parsed(d.day, MONTHS[d.month], year, d.hour, d.minute, d.second)))
            == if 0 <= t <= 0xffff_ffff then (1, t) else (-1, 0)
  {
    MonthIsFound(d.month);
    InterpretsAs(Parsed(d.day, MONTHS[d.month], year, d.hour, d.minute, d.second), d.month);
  }

  /** The year that is read: right for 19xx, a century or two early from 2000 on. */
  lemma {:induction false} InterpretsRfc850(d: Date, t: nat)
    requires d.month < 12 && 1970 <= d.year < 2200 && t <= 0xffff_ffff && TimeGm(d) == t
    ensures Interpret(Some(Parsed(d.day, MONTHS[d.month], d.year % 100, d.hour, d.minute, d.second))) == (1, t)
            <==> d.year < 2000
  {
    InterpretsName(d, d.year % 100);
    SameTimeIff(d);
  }

  /** 946684800 is midnight at the start of the year 2000. */
  const Y2K: nat := 946684800

  lemma {:induction false} DaysBefore2000(y: int, n: nat)
    requires n < YearLength(y)
    ensures y < 2000 <==> DaysBeforeYear(y) + n < Y2K / DAY
  {
    assert DaysBeforeYear(2000) == Y2K / DAY;
  }

  lemma {:induction false} BeforeTheYear2000(t: nat)
    ensures GmTime(t).year < 2000 <==> t < Y2K
  {
    var (y, n) := YearDay(1970, t / DAY);
    YearDayInverts(1970, t / DAY);
    DaysBefore2000(y, n);
    assert DaysBeforeYear(1970) == 0;
  }

  /**
    The RFC 850 form of `t` after weekday `w` is read as `t` exactly for times before the year 2000
    and weekdays, comma included, of at most 9 characters: "Wednesday," is too long.
   */
  lemma {:induction false} Rfc850RoundTripsIff(t: nat, w: string)
    requires t <= 0xffff_ffff && w != [] && ' ' !in w && Printable(GmTime(t))
    ensures DateLine(PREFIX + (w + (" " + PrintRfc850(GmTime(t))))) == (1, t) <==> |w| <= 9 && t < Y2K
  {
    BeforeTheYear2000(t);
    var d := GmTime(t);
    var body := PrintRfc850(d);
    var line := PREFIX + (w + (" " + body));
    MonthWord(d.month);
    ClockStarts(d, " GMT");
    assert |body| == 22 && !IsSpace(body[0]);
    ParsesRfc850(d);
    YearInRange(t);
    TimeGmInverts(t);
    InterpretsRfc850(d, t);
    SkipsWeekday(w, body);
    assert line[..8] == PREFIX && line[8..] == w + (" " + body);
  }

  /** 1 January 2014 in this form is not read as that time, whatever the weekday. */
  lemma {:induction false} Rfc850Example(w: string)
    requires w != [] && ' ' !in w && Printable(GmTime(1388534400))
    ensures DateLine(PREFIX + (w + (" " + PrintRfc850(GmTime(1388534400))))) != (1, 1388534400)
  {
    Rfc850RoundTripsIff(1388534400, w);
  }

  const Sample := Date(1994, 10, 6, 8, 49, 37)

  lemma SampleNumbers()
    ensures Two(8) == "08" && Two(49) == "49" && Two(37) == "37" && Two(6) == "06" && Two(94) == "94"
    ensures Padded(6) == "6" && Four(1994) == "1994" && MONTHS[10] == "Nov"
  {
  }

  lemma SampleClock(rest: string)
    ensures PrintClock(Sample, rest) == "08:49:37" + rest
  {
    SampleNumbers();
    var s := "37" + rest;
    assert "49" + (":" + s) == "49:37" + rest;
    assert "08" + (":" + ("49:37" + rest)) == "08:49:37" + rest;
  }

  lemma Join(a: string, b: string, c: string, d: string, e: string, f: string, g: string)
    ensures a + (b + (c + (d + (e + (f + g))))) == a + b + c + d + e + f + g
  {
  }

  /** The three forms of the example in section 3.3.1 of RFC 2616. */
  lemma PrintedForms()
    ensures PrintRfc1123(Sample) == "06" + " " + "Nov" + " " + "1994" + " " + "08:49:37 GMT"
    ensures PrintRfc850(Sample) == "06" + "-" + "Nov" + "-" + "94" + " " + "08:49:37 GMT"
    ensures PrintAsctime(Sample) == "Nov" + "  " + "6" + " " + "08:49:37 1994"
  {
    SampleNumbers();
    SampleClock(" GMT");
    SampleClock(" 1994");
    assert "08:49:37" + " GMT" == "08:49:37 GMT" && "08:49:37" + " 1994" == "08:49:37 1994";
    assert " " + "1994" == " 1994";
    Join("06", " ", "Nov", " ", "1994", " ", "08:49:37 GMT");
    Join("06", "-", "Nov", "-", "94", " ", "08:49:37 GMT");
    Join("", "", "Nov", "  ", "6", " ", "08:49:37 1994");
  }
}
