/** C strings and the part of sscanf() the program relies on, over 8-bit characters. */
module Scanner {
  const NUL: char := 0 as char

  /** isspace() in the C locale. */
  predicate IsSpace(c: char) {
    c == ' ' || 9 <= c as int <= 13
  }

  predicate IsDigit(c: char) {
    48 <= c as int <= 57
  }

  /** What a C function sees of a buffer: everything before the first NUL. */
  function CStr(s: string): string {
    if s == [] || s[0] == NUL then [] else [s[0]] + CStr(s[1..])
  }

  function SkipSpace(s: string): string {
    if s != [] && IsSpace(s[0]) then SkipSpace(s[1..]) else s
  }

  /** The number of leading characters, at most `width`, that are not white space. */
  function WordLength(s: string, width: nat): (n: nat)
    ensures n <= |s| && n <= width
  {
    if s == [] || width == 0 || IsSpace(s[0]) then 0 else 1 + WordLength(s[1..], width - 1)
  }

  function DigitsLength(s: string): (n: nat)
    ensures n <= |s|
  {
    if s == [] || !IsDigit(s[0]) then 0 else 1 + DigitsLength(s[1..])
  }

  function Digit(c: char): nat
    requires IsDigit(c)
  {
    c as int - 48
  }

  function Value(digits: string): int
    requires forall i :: 0 <= i < |digits| ==> IsDigit(digits[i])
  {
    if digits == [] then 0
    else 10 * Value(digits[..|digits| - 1]) + Digit(digits[|digits| - 1])
  }

  lemma {:induction false} DigitsAreDigits(s: string)
    ensures forall i :: 0 <= i < DigitsLength(s) ==> IsDigit(s[i])
    ensures DigitsLength(s) < |s| ==> !IsDigit(s[DigitsLength(s)])
  {
    if s != [] && IsDigit(s[0]) { DigitsAreDigits(s[1..]); }
  }

  /** A scan format: "%d", "%3s", "%*s", white space, or a literal character, and what follows it. */
  datatype Format =
    | Done
    | Int(more: Format)
    | Word(width: nat, more: Format)
    | SkipWord(more: Format)
    | Space(more: Format)
    | Lit(c: char, more: Format)

  datatype Field = Num(n: int) | Str(s: string)

  /** The fields sscanf() stores before the first directive that fails. */
  function Scan(format: Format, s: string): seq<Field>
    decreases format
  {
    match format
    case Done => []
    case Space(more) => Scan(more, SkipSpace(s))
    case Lit(c, more) => if s != [] && s[0] == c then Scan(more, s[1..]) else []
    case SkipWord(more) =>
      var t := SkipSpace(s);
      var n := WordLength(t, |t|);
      if n == 0 then [] else Scan(more, t[n..])
    case Word(width, more) =>
      var t := SkipSpace(s);
      var n := WordLength(t, width);
      if n == 0 then [] else [Str(t[..n])] + Scan(more, t[n..])
    case Int(more) =>
      var t := SkipSpace(s);
      var negative := t != [] && t[0] == '-';
      var u := if t != [] && (t[0] == '-' || t[0] == '+') then t[1..] else t;
      var n := DigitsLength(u);
      DigitsAreDigits(u);
      if n == 0 then [] else [Num(if negative then -Value(u[..n]) else Value(u[..n]))] + Scan(more, u[n..])
  }

  // ---- scanning what was printed ----

  lemma {:induction false} CStrWhole(s: string)
    requires NUL !in s
    ensures CStr(s) == s
  {
    if s != [] { CStrWhole(s[1..]); }
  }

  predicate AllDigits(s: string) {
    forall i :: 0 <= i < |s| ==> IsDigit(s[i])
  }

  lemma {:induction false} DigitsLengthOf(digits: string, rest: string)
    requires AllDigits(digits) && (rest == [] || !IsDigit(rest[0]))
    ensures DigitsLength(digits + rest) == |digits|
  {
    if digits == [] {
      assert digits + rest == rest;
    } else {
      assert (digits + rest)[1..] == digits[1..] + rest;
      DigitsLengthOf(digits[1..], rest);
    }
  }

  lemma {:induction false} ScanInt(more: Format, digits: string, rest: string)
    requires digits != [] && AllDigits(digits) && (rest == [] || !IsDigit(rest[0]))
    ensures Scan(Int(more), digits + rest) == [Num(Value(digits))] + Scan(more, rest)
  {
    var s := digits + rest;
    assert s[0] == digits[0] && IsDigit(s[0]);
    assert SkipSpace(s) == s;
    DigitsLengthOf(digits, rest);
    assert s[..|digits|] == digits && s[|digits|..] == rest;
  }

  lemma {:induction false} WordLengthOf(word: string, rest: string)
    requires forall i :: 0 <= i < |word| ==> !IsSpace(word[i])
    ensures WordLength(word + rest, |word|) == |word|
  {
    if word != [] {
      assert (word + rest)[1..] == word[1..] + rest;
      WordLengthOf(word[1..], rest);
    }
  }

  lemma {:induction false} ScanWord(more: Format, word: string, rest: string)
    requires word != [] && forall i :: 0 <= i < |word| ==> !IsSpace(word[i])
    ensures Scan(Word(|word|, more), word + rest) == [Str(word)] + Scan(more, rest)
  {
    var s := word + rest;
    assert s[0] == word[0];
    assert SkipSpace(s) == s;
    WordLengthOf(word, rest);
    assert s[..|word|] == word && s[|word|..] == rest;
  }

  lemma {:induction false} WholeWordLength(word: string, rest: string)
    requires (forall i :: 0 <= i < |word| ==> !IsSpace(word[i])) && rest != [] && IsSpace(rest[0])
    ensures WordLength(word + rest, |word + rest|) == |word|
  {
    if word == [] {
      assert word + rest == rest;
    } else {
      assert (word + rest)[1..] == word[1..] + rest;
      WholeWordLength(word[1..], rest);
    }
  }

  lemma {:induction false} ScanSkipWord(more: Format, word: string, rest: string)
    requires word != [] && (forall i :: 0 <= i < |word| ==> !IsSpace(word[i])) && rest != [] && IsSpace(rest[0])
    ensures Scan(SkipWord(more), word + rest) == Scan(more, rest)
  {
    var s := word + rest;
    assert s[0] == word[0];
    assert SkipSpace(s) == s;
    WholeWordLength(word, rest);
    assert s[|word|..] == rest;
  }

  lemma {:induction false} SkipSpaces(spaces: string, rest: string)
    requires forall i :: 0 <= i < |spaces| ==> IsSpace(spaces[i])
    requires rest != [] && !IsSpace(rest[0])
    ensures SkipSpace(spaces + rest) == rest
  {
    if spaces == [] {
      assert spaces + rest == rest;
    } else {
      assert (spaces + rest)[1..] == spaces[1..] + rest;
      SkipSpaces(spaces[1..], rest);
    }
  }

  lemma {:induction false} ScanSpace(more: Format, spaces: string, rest: string)
    requires forall i :: 0 <= i < |spaces| ==> IsSpace(spaces[i])
    requires rest != [] && !IsSpace(rest[0])
    ensures Scan(Space(more), spaces + rest) == Scan(more, rest)
  {
    SkipSpaces(spaces, rest);
  }

  lemma {:induction false} ScanLit(more: Format, c: char, rest: string)
    ensures Scan(Lit(c, more), [c] + rest) == Scan(more, rest)
  {
    assert ([c] + rest)[1..] == rest;
  }

  /** isspace() in the C locale, by code. */
  lemma Spaces(c: char)
    ensures IsSpace(c) <==> c as int in {9, 10, 11, 12, 13, 32}
    ensures IsDigit(c) <==> '0' <= c <= '9'
  {
  }

  /** "%d" skips white space and takes a sign. */
  lemma {:induction false} ScanSigned(more: Format, spaces: string, sign: char, digits: string, rest: string)
    requires forall i :: 0 <= i < |spaces| ==> IsSpace(spaces[i])
    requires (sign == '-' || sign == '+') && digits != [] && AllDigits(digits) && (rest == [] || !IsDigit(rest[0]))
    ensures Scan(Int(more), spaces + ([sign] + (digits + rest)))
         == [Num(if sign == '-' then -Value(digits) else Value(digits))] + Scan(more, rest)
  {
    var s := digits + rest;
    SkipSpaces(spaces, [sign] + s);
    assert ([sign] + s)[1..] == s;
    DigitsLengthOf(digits, rest);
    assert s[..|digits|] == digits && s[|digits|..] == rest;
  }

  /** "%3s" skips white space and stops at the next, however short the word is. */
  lemma {:induction false} ScanShortWord(more: Format, width: nat, spaces: string, word: string, rest: string)
    requires forall i :: 0 <= i < |spaces| ==> IsSpace(spaces[i])
    requires word != [] && |word| <= width && forall i :: 0 <= i < |word| ==> !IsSpace(word[i])
    requires rest != [] && IsSpace(rest[0])
    ensures Scan(Word(width, more), spaces + (word + rest)) == [Str(word)] + Scan(more, rest)
  {
    var s := word + rest;
    assert s[0] == word[0];
    SkipSpaces(spaces, s);
    ShortWordLength(word, rest, width);
    assert s[..|word|] == word && s[|word|..] == rest;
  }

  lemma {:induction false} ShortWordLength(word: string, rest: string, width: nat)
    requires (forall i :: 0 <= i < |word| ==> !IsSpace(word[i])) && |word| <= width && rest != [] && IsSpace(rest[0])
    ensures WordLength(word + rest, width) == |word|
  {
    if word == [] {
      assert word + rest == rest;
    } else {
      assert (word + rest)[1..] == word[1..] + rest;
      ShortWordLength(word[1..], rest, width - 1);
    }
  }
}
