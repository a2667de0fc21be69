/** The Python string operations the handlers rely on (`str.strip`,
    `str.replace`, `str.split`, slicing, `re.sub`, `str.upper`,
    `str.capitalize`, f-string formatting of integers), as functions on
    `seq<char>`. Case mapping and the `\d` class are modelled on ASCII. */
module Text {

  /** The characters Python's `str.isspace` accepts, which is the set that
      `str.strip()` and `str.split()` without arguments remove. */
  predicate IsSpace(c: char)
  {
    c == ' ' || ('\t' <= c <= '\r') || ('\U{1C}' <= c <= '\U{1F}')
    || c == '\U{85}' || c == '\U{A0}' || c == '\U{1680}'
    || ('\U{2000}' <= c <= '\U{200A}') || c == '\U{2028}' || c == '\U{2029}'
    || c == '\U{202F}' || c == '\U{205F}' || c == '\U{3000}'
  }

  predicate IsDigit(c: char)
  {
    '0' <= c <= '9'
  }

  predicate IsUpperLetter(c: char)
  {
    'A' <= c <= 'Z'
  }

  /** `str.lstrip()`: the longest suffix of `s` that does not start with a
      space, all of whose dropped characters are spaces. */
  function TrimStart(s: string): (r: string)
    ensures |r| <= |s| && r == s[|s| - |r|..]
    ensures r == [] || !IsSpace(r[0])
    ensures forall i :: 0 <= i < |s| - |r| ==> IsSpace(s[i])
  {
    if s == [] || !IsSpace(s[0]) then s else TrimStart(s[1..])
  }

  /** `str.rstrip()`: the longest prefix of `s` that does not end with a
      space, all of whose dropped characters are spaces. */
  function TrimEnd(s: string): (r: string)
    ensures |r| <= |s| && r == s[..|r|]
    ensures r == [] || !IsSpace(r[|r| - 1])
    ensures forall i :: |r| <= i < |s| ==> IsSpace(s[i])
  {
    if s == [] || !IsSpace(s[|s| - 1]) then s else TrimEnd(s[..|s| - 1])
  }

  /** `str.strip()`: the input with its leading and trailing spaces
      removed, so that neither end of the result is a space. */
  function Strip(s: string): (r: string)
    ensures |r| <= |s|
    ensures r == [] || (!IsSpace(r[0]) && !IsSpace(r[|r| - 1]))
    ensures exists i, j :: (0 <= i <= j <= |s| && r == s[i..j]
      && (forall k :: 0 <= k < i ==> IsSpace(s[k])) && (forall k :: j <= k < |s| ==> IsSpace(s[k])))
  {
    var t := TrimStart(s);
    var r := TrimEnd(t);
    var i := |s| - |t|;
    assert r == s[i..i + |r|];
    r
  }

  /** A string whose ends are not spaces is left alone by `strip`. */
  lemma StripFixed(s: string)
    requires s == [] || (!IsSpace(s[0]) && !IsSpace(s[|s| - 1]))
    ensures Strip(s) == s
  {
    var t := TrimStart(s);
    if |t| < |s| {
      assert IsSpace(s[0]);
    }
    assert t == s;
  }

  /** `s.replace(c, "")` for a one-character `c`. */
  function RemoveAll(s: string, c: char): (r: string)
    ensures |r| <= |s|
    ensures c !in r
    ensures forall d :: d in r <==> d in s && d != c
    ensures s != [] && s[0] != c ==> r != [] && r[0] == s[0]
    ensures s != [] && s[|s| - 1] != c ==> r != [] && r[|r| - 1] == s[|s| - 1]
  {
    if s == [] then []
    else if s[0] == c then RemoveAll(s[1..], c)
    else [s[0]] + RemoveAll(s[1..], c)
  }

  /** Removing a character that does not occur changes nothing. */
  lemma {:induction false} RemoveAllAbsent(s: string, c: char)
    requires c !in s
    ensures RemoveAll(s, c) == s
  {
    if s != [] {
      assert s[0] != c;
      RemoveAllAbsent(s[1..], c);
    }
  }

  /** Removal works piecewise: removing from a concatenation removes from
      each part. */
  lemma {:induction false} RemoveAllConcat(a: string, b: string, c: char)
    ensures RemoveAll(a + b, c) == RemoveAll(a, c) + RemoveAll(b, c)
  {
    if a == [] {
      assert a + b == b;
    } else {
      assert (a + b)[0] == a[0] && (a + b)[1..] == a[1..] + b;
      RemoveAllConcat(a[1..], b, c);
    }
  }

  /** `re.sub(r"\D", "", s)`: the digits of `s`, in order. */
  function DigitsOnly(s: string): (r: string)
    ensures |r| <= |s|
    ensures forall i :: 0 <= i < |r| ==> IsDigit(r[i])
    ensures forall c :: IsDigit(c) ==> (c in r <==> c in s)
  {
    if s == [] then []
    else if IsDigit(s[0]) then [s[0]] + DigitsOnly(s[1..])
    else DigitsOnly(s[1..])
  }

  /** A string already made of digits is its own normal form. */
  lemma {:induction false} DigitsOnlyOfDigits(s: string)
    requires forall i :: 0 <= i < |s| ==> IsDigit(s[i])
    ensures DigitsOnly(s) == s
  {
    if s != [] {
      DigitsOnlyOfDigits(s[1..]);
    }
  }

  /** Filtering distributes over concatenation. */
  lemma {:induction false} DigitsOnlyConcat(a: string, b: string)
    ensures DigitsOnly(a + b) == DigitsOnly(a) + DigitsOnly(b)
  {
    if a == [] {
      assert a + b == b;
    } else {
      assert (a + b)[0] == a[0] && (a + b)[1..] == a[1..] + b;
      DigitsOnlyConcat(a[1..], b);
    }
  }

  /** A character that is not a digit is deleted wherever it stands, and a
      digit is kept between the digits before and after it. */
  lemma DigitsOnlyDeletes(a: string, c: char, b: string)
    ensures !IsDigit(c) ==> DigitsOnly(a + [c] + b) == DigitsOnly(a + b)
    ensures IsDigit(c) ==> DigitsOnly(a + [c] + b) == DigitsOnly(a) + [c] + DigitsOnly(b)
  {
    var ac := a + [c];
    DigitsOnlyConcat(ac, b);
    DigitsOnlyConcat(a, [c]);
    assert [c][1..] == [];
    if IsDigit(c) {
      assert DigitsOnly([c]) == [c];
    } else {
      assert DigitsOnly([c]) == [];
      assert DigitsOnly(ac) == DigitsOnly(a);
      DigitsOnlyConcat(a, b);
    }
  }

  /** `re.sub(r"[^A-Z]", "", s)`: the capital letters of `s`, in order. */
  function UpperLettersOnly(s: string): (r: string)
    ensures |r| <= |s|
    ensures forall i :: 0 <= i < |r| ==> IsUpperLetter(r[i])
  {
    if s == [] then []
    else if IsUpperLetter(s[0]) then [s[0]] + UpperLettersOnly(s[1..])
    else UpperLettersOnly(s[1..])
  }

  /** Filtering distributes over concatenation. */
  lemma {:induction false} UpperLettersOnlyConcat(a: string, b: string)
    ensures UpperLettersOnly(a + b) == UpperLettersOnly(a) + UpperLettersOnly(b)
  {
    if a == [] {
      assert a + b == b;
    } else {
      assert (a + b)[0] == a[0] && (a + b)[1..] == a[1..] + b;
      UpperLettersOnlyConcat(a[1..], b);
    }
  }

  /** A capital letter is kept in place and any other character is deleted. */
  lemma UpperLettersOnlyAround(a: string, c: char, b: string)
    ensures UpperLettersOnly(a + [c] + b) == UpperLettersOnly(a) + (if IsUpperLetter(c) then [c] else []) + UpperLettersOnly(b)
  {
    UpperLettersOnlyConcat(a + [c], b);
    UpperLettersOnlyConcat(a, [c]);
    assert UpperLettersOnly([c]) == if IsUpperLetter(c) then [c] else [] by {
      assert [c][1..] == [];
    }
  }

  /** A string of capital letters is kept whole. */
  lemma {:induction false} UpperLettersOnlyOfUpper(s: string)
    requires forall i :: 0 <= i < |s| ==> IsUpperLetter(s[i])
    ensures UpperLettersOnly(s) == s
  {
    if s != [] {
      UpperLettersOnlyOfUpper(s[1..]);
    }
  }

  function UpperChar(c: char): char
  {
    if 'a' <= c <= 'z' then (c as int - 'a' as int + 'A' as int) as char else c
  }

  function LowerChar(c: char): char
  {
    if 'A' <= c <= 'Z' then (c as int - 'A' as int + 'a' as int) as char else c
  }

  /** `str.upper()`: every lower-case letter replaced by its capital. */
  function Upper(s: string): (r: string)
    ensures |r| == |s|
    ensures forall i :: 0 <= i < |s| ==> r[i] == UpperChar(s[i])
  {
    seq(|s|, i requires 0 <= i < |s| => UpperChar(s[i]))
  }

  /** `str.capitalize()`: the first character upper-cased, the rest lower-cased. */
  function Capitalize(s: string): (r: string)
    ensures |r| == |s|
    ensures s != [] ==> r[0] == UpperChar(s[0])
    ensures forall i :: 0 < i < |s| ==> r[i] == LowerChar(s[i])
  {
    if s == [] then []
    else [UpperChar(s[0])] + seq(|s| - 1, i requires 0 <= i < |s| - 1 => LowerChar(s[i + 1]))
  }

  /** The first word of `s.split()`: the first run of non-space characters
      after the leading spaces, ending at a space or at the end of `s`. */
  function FirstWord(s: string): (r: string)
    ensures |r| <= |s|
    ensures forall i :: 0 <= i < |r| ==> !IsSpace(r[i])
    ensures |r| <= |TrimStart(s)| && r == TrimStart(s)[..|r|] && (|r| < |TrimStart(s)| ==> IsSpace(TrimStart(s)[|r|]))
    ensures Strip(s) != [] ==> r != []
  {
    LeadingRun(TrimStart(s))
  }

  /** The longest prefix of `s` without a space. */
  function LeadingRun(s: string): (r: string)
    ensures |r| <= |s| && r == s[..|r|]
    ensures forall i :: 0 <= i < |r| ==> !IsSpace(s[i])
    ensures |r| < |s| ==> IsSpace(s[|r|])
  {
    if s == [] || IsSpace(s[0]) then [] else [s[0]] + LeadingRun(s[1..])
  }

  /** Leading spaces are dropped up to the first non-space character. */
  lemma {:induction false} TrimStartAfterSpaces(lead: string, t: string)
    requires forall i :: 0 <= i < |lead| ==> IsSpace(lead[i])
    requires t == [] || !IsSpace(t[0])
    ensures TrimStart(lead + t) == t
  {
    if lead != [] {
      assert (lead + t)[1..] == lead[1..] + t;
      TrimStartAfterSpaces(lead[1..], t);
    }
  }

  /** The run of non-space characters of a word followed by a space or nothing is the word. */
  lemma {:induction false} LeadingRunOfWord(word: string, rest: string)
    requires forall i :: 0 <= i < |word| ==> !IsSpace(word[i])
    requires rest == [] || IsSpace(rest[0])
    ensures LeadingRun(word + rest) == word
  {
    if word == [] {
      assert word + rest == rest;
    } else {
      assert (word + rest)[0] == word[0] && (word + rest)[1..] == word[1..] + rest;
      LeadingRunOfWord(word[1..], rest);
    }
  }

  /** The first word of spaces, a word, and then a space or nothing, is that word. */
  lemma FirstWordOf(lead: string, word: string, rest: string)
    requires forall i :: 0 <= i < |lead| ==> IsSpace(lead[i])
    requires word != [] && forall i :: 0 <= i < |word| ==> !IsSpace(word[i])
    requires rest == [] || IsSpace(rest[0])
    ensures FirstWord(lead + word + rest) == word
  {
    assert lead + word + rest == lead + (word + rest);
    TrimStartAfterSpaces(lead, word + rest);
    LeadingRunOfWord(word, rest);
  }

  /** Slicing `s[:n]`: the first `n` characters, or all of `s` if it is shorter. */
  function Truncate(s: string, n: nat): (r: string)
    ensures |r| <= n && |r| <= |s|
    ensures r == s[..|r|]
    ensures |s| <= n ==> r == s
    ensures |s| > n ==> |r| == n
  {
    if |s| <= n then s else s[..n]
  }

  /** `"<c>".join(parts)`. */
  function Join(parts: seq<string>, c: char): string
  {
    if parts == [] then []
    else if |parts| == 1 then parts[0]
    else parts[0] + [c] + Join(parts[1..], c)
  }

  /** `s.split(c)` for a one-character separator: at least one piece, no
      piece contains the separator, and joining the pieces back gives `s`. */
  function Split(s: string, c: char): (r: seq<string>)
    ensures |r| >= 1
    ensures forall k :: 0 <= k < |r| ==> c !in r[k]
    ensures Join(r, c) == s
  {
    if s == [] then [[]]
    else
      var rest := Split(s[1..], c);
      if s[0] == c then
        [[]] + rest
      else
        [[s[0]] + rest[0]] + rest[1..]
  }

  /** A string without the separator splits into itself alone. */
  lemma {:induction false} SplitAbsent(s: string, c: char)
    requires c !in s
    ensures Split(s, c) == [s]
  {
    if s != [] {
      SplitAbsent(s[1..], c);
    }
  }

  /** Splitting after a separator-free first piece yields that piece, then
      the pieces of the rest. */
  lemma {:induction false} SplitCons(a: string, b: string, c: char)
    requires c !in a
    ensures Split(a + [c] + b, c) == [a] + Split(b, c)
  {
    var s := a + [c] + b;
    if a == [] {
      assert s[1..] == b;
    } else {
      assert s[1..] == a[1..] + [c] + b;
      SplitCons(a[1..], b, c);
      assert [a[0]] + a[1..] == a;
    }
  }

  lemma JoinedFour(a: string, b: string, c: string, d: string, sep: char)
    ensures a + [sep] + b + [sep] + c + [sep] + d == a + [sep] + (b + [sep] + (c + [sep] + d))
  {
  }

  /** Joining four pieces puts the separator between each neighbouring pair. */
  lemma JoinFour(a: string, b: string, c: string, d: string, sep: char)
    ensures Join([a, b, c, d], sep) == a + [sep] + b + [sep] + c + [sep] + d
  {
    assert [c, d][1..] == [d];
    assert Join([c, d], sep) == c + [sep] + d;
    assert [b, c, d][1..] == [c, d];
    assert Join([b, c, d], sep) == b + [sep] + (c + [sep] + d);
    assert [a, b, c, d][1..] == [b, c, d];
    assert Join([a, b, c, d], sep) == a + [sep] + (b + [sep] + (c + [sep] + d));
    JoinedFour(a, b, c, d, sep);
  }

  /** Four separator-free pieces joined by the separator split back into themselves. */
  lemma SplitFour(a: string, b: string, c: string, d: string, sep: char)
    requires sep !in a && sep !in b && sep !in c && sep !in d
    ensures Split(a + [sep] + b + [sep] + c + [sep] + d, sep) == [a, b, c, d]
  {
    var t3 := c + [sep] + d;
    var t2 := b + [sep] + t3;
    SplitAbsent(d, sep);
    SplitCons(c, d, sep);
    assert Split(t3, sep) == [c, d];
    SplitCons(b, t3, sep);
    assert Split(t2, sep) == [b, c, d];
    SplitCons(a, t2, sep);
    assert Split(a + [sep] + t2, sep) == [a, b, c, d];
    JoinedFour(a, b, c, d, sep);
  }

  function DigitChar(d: nat): char
    requires d < 10
  {
    ('0' as int + d) as char
  }

  /** The value of a decimal digit; other characters count as 0. */
  function DigitValue(c: char): nat
  {
    if IsDigit(c) then c as int - '0' as int else 0
  }

  /** The number a string of decimal digits denotes, most significant first. */
  function DecimalValue(s: string): nat
  {
    if s == [] then 0 else 10 * DecimalValue(s[..|s| - 1]) + DigitValue(s[|s| - 1])
  }

  function Pow10(w: nat): nat
  {
    if w == 0 then 1 else 10 * Pow10(w - 1)
  }

  /** The decimal form Python's `str(n)` gives a non-negative integer: digits
      denoting `n`, without leading zeros. */
  function NatToString(n: nat): (r: string)
    ensures r != []
    ensures forall i :: 0 <= i < |r| ==> IsDigit(r[i])
    ensures DecimalValue(r) == n
    ensures r[0] == '0' ==> n == 0
    ensures |r| > 1 ==> r[0] != '0'
  {
    if n < 10 then
      assert [DigitChar(n)][..0] == [];
      [DigitChar(n)]
    else
      var t := NatToString(n / 10);
      var r := t + [DigitChar(n % 10)];
      assert r[..|r| - 1] == t;
      r
  }

  /** Numbers below `10^w` take at most `w` digits. */
  lemma {:induction false} NatToStringWidth(n: nat, w: nat)
    requires 1 <= w && n < Pow10(w)
    ensures |NatToString(n)| <= w
  {
    if n >= 10 {
      assert w >= 2;
      assert n / 10 < Pow10(w - 1);
      NatToStringWidth(n / 10, w - 1);
    }
  }

  /** The decimal form Python's `str(i)` gives an integer: a minus sign
      exactly for negative numbers, then the digits of the magnitude. */
  function IntToString(i: int): (r: string)
    ensures r != []
    ensures i >= 0 <==> r[0] != '-'
    ensures i >= 0 ==> (forall k :: 0 <= k < |r| ==> IsDigit(r[k])) && DecimalValue(r) == i
    ensures i < 0 ==> |r| >= 2 && (forall k :: 1 <= k < |r| ==> IsDigit(r[k])) && DecimalValue(r[1..]) == -i
  {
    if i < 0 then
      var r := "-" + NatToString(-i);
      assert r[1..] == NatToString(-i);
      r
    else NatToString(i)
  }

  /** All-zero digits denote 0. */
  lemma {:induction false} ZerosValue(z: string)
    requires forall i :: 0 <= i < |z| ==> z[i] == '0'
    ensures DecimalValue(z) == 0
  {
    if z != [] {
      ZerosValue(z[..|z| - 1]);
    }
  }

  /** Leading zeros do not change the value. */
  lemma {:induction false} LeadingZerosValue(z: string, d: string)
    requires forall i :: 0 <= i < |z| ==> z[i] == '0'
    ensures DecimalValue(z + d) == DecimalValue(d)
  {
    if d == [] {
      assert z + d == z;
      ZerosValue(z);
    } else {
      assert (z + d)[..|z + d| - 1] == z + d[..|d| - 1];
      LeadingZerosValue(z, d[..|d| - 1]);
    }
  }

  /** `n` written with at least `width` digits, zero-padded on the left
      (`%d` of `strftime` and `date.isoformat`); exactly `width` digits when
      `n` fits in them. */
  function ZeroPad(n: nat, width: nat): (r: string)
    ensures |r| >= width
    ensures forall i :: 0 <= i < |r| ==> IsDigit(r[i])
    ensures DecimalValue(r) == n
    ensures 1 <= width && n < Pow10(width) ==> |r| == width
  {
    var digits := NatToString(n);
    if |digits| >= width then
      if 1 <= width && n < Pow10(width) then
        NatToStringWidth(n, width);
        digits
      else digits
    else
      var zeros := seq(width - |digits|, _ => '0');
      LeadingZerosValue(zeros, digits);
      zeros + digits
  }

  /** A calendar date (`datetime.date`). */
  datatype Date = Date(year: nat, month: nat, day: nat)

  /** `strftime('%d/%m/%Y')`. */
  function DayMonthYear(d: Date): string
  {
    ZeroPad(d.day, 2) + "/" + ZeroPad(d.month, 2) + "/" + ZeroPad(d.year, 4)
  }

  /** `date.isoformat()`. */
  function IsoDate(d: Date): string
  {
    ZeroPad(d.year, 4) + "-" + ZeroPad(d.month, 2) + "-" + ZeroPad(d.day, 2)
  }

  /** For a four-digit year, `DD/MM/YYYY`: two digits of the day, a slash,
      two digits of the month, a slash and four digits of the year. */
  lemma DayMonthYearFields(d: Date)
    requires d.year < 10000 && d.month < 100 && d.day < 100
    ensures var r := DayMonthYear(d);
      && |r| == 10 && r[2] == '/' && r[5] == '/'
      && (forall i :: 0 <= i < 10 && i != 2 && i != 5 ==> IsDigit(r[i]))
      && DecimalValue(r[..2]) == d.day && DecimalValue(r[3..5]) == d.month && DecimalValue(r[6..]) == d.year
  {
    var a, b, c := ZeroPad(d.day, 2), ZeroPad(d.month, 2), ZeroPad(d.year, 4);
    assert Pow10(2) == 100 && Pow10(4) == 10000;
    var r := DayMonthYear(d);
    assert r == a + "/" + b + "/" + c;
    assert r[..2] == a && r[3..5] == b && r[6..] == c;
  }

  /** For a four-digit year, `YYYY-MM-DD`: four digits of the year, a dash,
      two digits of the month, a dash and two digits of the day. */
  lemma IsoDateFields(d: Date)
    requires d.year < 10000 && d.month < 100 && d.day < 100
    ensures var r := IsoDate(d);
      && |r| == 10 && r[4] == '-' && r[7] == '-'
      && (forall i :: 0 <= i < 10 && i != 4 && i != 7 ==> IsDigit(r[i]))
      && DecimalValue(r[..4]) == d.year && DecimalValue(r[5..7]) == d.month && DecimalValue(r[8..]) == d.day
  {
    var a, b, c := ZeroPad(d.year, 4), ZeroPad(d.month, 2), ZeroPad(d.day, 2);
    assert Pow10(2) == 100 && Pow10(4) == 10000;
    var r := IsoDate(d);
    assert r == a + "-" + b + "-" + c;
    assert r[..4] == a && r[5..7] == b && r[8..] == c;
  }
}
