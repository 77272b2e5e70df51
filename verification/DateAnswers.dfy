/** What every answer of the Date reader means, for any stream. */
module DateAnswers {
  import opened Settings
  import opened Scanner
  import opened Transport
  import opened Calendar
  import opened HttpDate

  /** A Date line that ends within the first 8191 bytes. */
  predicate Complete(stream: bytes, i: nat, j: nat) {
    && i + 2 <= j && j + 2 <= 8191
    && At(stream, "\r\nDate: ", i) && At(stream, "\r\n", j)
  }

  /** The first one: no Date header before it, no line end within it. */
  predicate FirstLine(stream: bytes, i: nat, j: nat) {
    && Complete(stream, i, j)
    && (forall k :: 0 <= k < i ==> !At(stream, "\r\nDate: ", k))
    && (forall k :: i + 2 <= k < j ==> !At(stream, "\r\n", k))
  }

  lemma AtPrefix(stream: bytes, n: nat, pat: bytes, i: nat)
    requires n <= |stream|
    ensures At(stream[..n], pat, i) <==> At(stream, pat, i) && i + |pat| <= n
  {
    if i + |pat| <= n { assert stream[..n][i..i + |pat|] == stream[i..i + |pat|]; }
  }

  /** Every stream has a first complete Date line or no complete one at all. */
  lemma {:induction false} HasLineOrNot(stream: bytes) returns (line: Option<(nat, nat)>)
    ensures line.Some? ==> FirstLine(stream, line.value.0, line.value.1)
    ensures line.Some? ==> line.value.1 <= |stream|
                           && LineOf(stream) == Some(stream[line.value.0..line.value.1])
    ensures line.None? ==> LineOf(stream).None? && forall i, j :: !Complete(stream, i, j)
  {
    var n := Least(|stream|, 8191);
    var s := stream[..n];
    forall pat: bytes, i: nat ensures At(s, pat, i) <==> At(stream, pat, i) && i + |pat| <= n {
      AtPrefix(stream, n, pat, i);
    }
    var i := Find(s, "\r\nDate: ", 0);
    if i.None? {
      forall a: nat, b: nat ensures !Complete(stream, a, b) {
        AtPrefix(stream, n, "\r\nDate: ", a);
        LineIsLong(stream, a, b);
      }
      return None;
    }
    var j := Find(s, "\r\n", i.value + 2);
    if j.None? {
      forall a: nat, b: nat ensures !Complete(stream, a, b) {
        AtPrefix(stream, n, "\r\nDate: ", a);
        AtPrefix(stream, n, "\r\n", b);
        LineIsLong(stream, a, b);
      }
      return None;
    }
    line := Some((i.value, j.value));
    assert s[i.value..j.value] == stream[i.value..j.value];
  }

  /** The line the reader works on. */
  function LineOf(stream: bytes): Option<bytes> {
    Locate(stream[..Least(|stream|, 8191)])
  }

  /** Without a complete Date line the answer is 0 when the stream ends early and -2 when it does not. */
  lemma {:induction false} NoLineNoTime(stream: bytes)
    requires forall i, j :: !Complete(stream, i, j)
    ensures OneShot(stream) == if |stream| < 8191 then (0, 0) else (-2, 0)
  {
    var line := HasLineOrNot(stream);
    assert line.None?;
  }

  function MonthNumber(name: string): (m: Option<nat>)
    ensures m.Some? ==> m.value < 12
  {
    if name == "Jan" then Some(0) else if name == "Feb" then Some(1) else if name == "Mar" then Some(2)
    else if name == "Apr" then Some(3) else if name == "May" then Some(4) else if name == "Jun" then Some(5)
    else if name == "Jul" then Some(6) else if name == "Aug" then Some(7) else if name == "Sep" then Some(8)
    else if name == "Oct" then Some(9) else if name == "Nov" then Some(10) else if name == "Dec" then Some(11)
    else None
  }

  lemma MonthNames(name: string)
    ensures MonthNumber(name) == if MonthIndex(name, 0) == 12 then None else Some(MonthIndex(name, 0))
  {
    MonthSearch(name, 0);
  }

  /** No earlier name matches. */
  lemma {:induction false} MonthSearch(name: string, i: nat)
    requires i <= 12
    ensures forall k :: i <= k < MonthIndex(name, i) ==> MONTHS[k] != name
    decreases 12 - i
  {
    if i < 12 && MONTHS[i] != name { MonthSearch(name, i + 1); }
  }

  /** The fields of the value behind the weekday, if one of the three forms fits. */
  function FieldsOf(value: string): Option<Parsed> {
    ParseDate(SkipBlanks(SkipToBlank(SkipBlanks(value))))
  }

  /** The seconds since 1970 of the fields, with the month by its number and two-digit years after 1900. */
  function Seconds(p: Parsed, m: nat): int
    requires m < 12
  {
    TimeGm(Date(if p.year < 100 then p.year + 1900 else p.year, m, p.day, p.hour, p.minute, p.second))
  }

  lemma {:induction false} LineIsValue(line: bytes)
    requires |line| >= 8 && line[..8] == "\r\nDate: "
    ensures CStr(line) == "\r\nDate: " + CStr(line[8..])
  {
    PlainPrefix("\r\nDate: ", line[8..]);
    assert line == "\r\nDate: " + line[8..];
  }

  lemma {:induction false} PlainPrefix(a: string, b: string)
    requires NUL !in a
    ensures CStr(a + b) == a + CStr(b)
  {
    if a == [] {
      assert a + b == b;
    } else {
      assert (a + b)[1..] == a[1..] + b;
      PlainPrefix(a[1..], b);
    }
  }

  /**
    The answer for a value: -1 for more than 32 characters or no known form, -2 for an unknown month,
    and otherwise 1 with the Gregorian count of the fields, or -1 if that is not a 32-bit time.
   */
  predicate Answer(value: string, r: (int, nat)) {
    var p := FieldsOf(value);
    Verdict(|value|, p, if p.Some? then MonthNumber(p.value.month) else None, r)
  }

  predicate Verdict(length: nat, p: Option<Parsed>, m: Option<nat>, r: (int, nat))
    requires m.Some? ==> m.value < 12
  {
    if length > 32 || p.None? then r == (-1, 0)
    else if m.None? then r == (-2, 0)
    else
      var t := Seconds(p.value, m.value);
      r == if 0 <= t < 0x1_0000_0000 then (1, t) else (-1, 0)
  }

  lemma {:induction false} LineDecides(line: string, value: string)
    requires line == "\r\nDate: " + value
    ensures Answer(value, DateLine(line))
  {
    assert line[..8] == "\r\nDate: " && line[8..] == value;
    var p := FieldsOf(value);
    if p.Some? { MonthNames(p.value.month); }
  }

  /** The first complete Date line decides. */
  lemma {:induction false} FirstLineDecides(stream: bytes, i: nat, j: nat)
    requires FirstLine(stream, i, j)
    ensures i + 8 <= j <= |stream| && Answer(CStr(stream[i + 8..j]), OneShot(stream))
  {
    var line := HasLineOrNot(stream);
    assert line.Some?;
    SameLine(stream, i, j, line.value.0, line.value.1);
    LineIsLong(stream, i, j);
    assert stream[i..j][8..] == stream[i + 8..j];
    assert stream[i..j][..8] == stream[i..i + 8];
    LineIsValue(stream[i..j]);
    LineDecides(CStr(stream[i..j]), CStr(stream[i + 8..j]));
  }

  lemma SameLine(stream: bytes, i: nat, j: nat, k: nat, l: nat)
    requires FirstLine(stream, i, j) && FirstLine(stream, k, l)
    ensures i == k && j == l
  {
    assert i == k;
  }

  /** No line end fits into the header name. */
  lemma LineIsLong(stream: bytes, i: nat, j: nat)
    ensures Complete(stream, i, j) ==> i + 8 <= j
  {
    if Complete(stream, i, j) {
      var pat: bytes := "\r\nDate: ";
      assert stream[j] == '\r' by { assert stream[j] == stream[j..j + 2][0]; }
      forall k | i + 2 <= k < i + 8 ensures stream[k] != '\r' {
        assert stream[k] == stream[i..i + 8][k - i] == pat[k - i];
      }
    }
  }

  lemma {:induction false} VerdictOne(length: nat, p: Option<Parsed>, m: Option<nat>, r: (int, nat))
    requires (m.Some? ==> m.value < 12) && Verdict(length, p, m, r) && r.0 == 1
    ensures length <= 32 && p.Some? && m.Some? && r.1 == Seconds(p.value, m.value) < 0x1_0000_0000
  {
  }

  /** What an answer of 1 says of the value. */
  predicate Reads(value: string, t: nat, p: Parsed, m: nat) {
    && |value| <= 32 && FieldsOf(value) == Some(p)
    && MonthNumber(p.month) == Some(m) && m < 12 && t == Seconds(p, m) < 0x1_0000_0000
  }

  lemma {:induction false} AnswerOne(value: string, r: (int, nat)) returns (p: Parsed, m: nat)
    ensures Answer(value, r) && r.0 == 1 ==> Reads(value, r.1, p, m)
  {
    var q := FieldsOf(value);
    var k := if q.Some? then MonthNumber(q.value.month) else None;
    p, m := Parsed(0, "", 0, 0, 0, 0), 0;
    if Verdict(|value|, q, k, r) && r.0 == 1 {
      VerdictOne(|value|, q, k, r);
      p, m := q.value, k.value;
    }
  }

  /** An answer of 1: there is a first complete Date line, and it holds that time. */
  lemma {:induction false} OneMeansTime(stream: bytes) returns (i: nat, j: nat, p: Parsed, m: nat)
    ensures OneShot(stream).0 == 1 ==> FirstLine(stream, i, j) && i + 8 <= j <= |stream|
    ensures OneShot(stream).0 == 1 ==> Reads(CStr(stream[i + 8..j]), OneShot(stream).1, p, m)
  {
    var line := HasLineOrNot(stream);
    i, j, p, m := 0, 0, Parsed(0, "", 0, 0, 0, 0), 0;
    if line.None? {
      NoLineNoTime(stream);
    } else {
      i, j := line.value.0, line.value.1;
      FirstLineDecides(stream, i, j);
      p, m := AnswerOne(CStr(stream[i + 8..j]), OneShot(stream));
    }
  }
}
