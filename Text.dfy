/** Decimal numerals and separator-delimited text: the pieces the CSV export
    of recursiveMatrix846.cpp is made of. */
module Text {

  predicate IsDigit(ch: char)
  {
    '0' <= ch <= '9'
  }

  predicate AllDigits(s: string)
  {
    forall t :: 0 <= t < |s| ==> IsDigit(s[t])
  }

  function DigitChar(d: nat): (ch: char)
    requires d < 10
    ensures IsDigit(ch)
  {
    ('0' as int + d) as char
  }

  function DigitValue(ch: char): (d: nat)
    requires IsDigit(ch)
    ensures d < 10
  {
    ch as int - '0' as int
  }

  /** std::to_string of a non-negative integer: its decimal digits, most
      significant first, with no leading zero. */
  function Decimal(n: nat): (s: string)
    ensures 1 <= |s| && AllDigits(s)
    ensures |s| > 1 ==> s[0] != '0'
  {
    if n < 10 then [DigitChar(n)] else Decimal(n / 10) + [DigitChar(n % 10)]
  }

  /** The value of a string of digits. */
  function ParseDigits(s: string): nat
    requires AllDigits(s)
  {
    if |s| == 0 then 0 else ParseDigits(s[..|s| - 1]) * 10 + DigitValue(s[|s| - 1])
  }

  /** Reading a numeral back gives the number written. */
  lemma {:induction false} DecimalRoundTrip(n: nat)
    ensures ParseDigits(Decimal(n)) == n
  {
    if n >= 10 {
      var s := Decimal(n);
      assert s[..|s| - 1] == Decimal(n / 10);
      DecimalRoundTrip(n / 10);
    }
  }

  /** Different numbers have different numerals. */
  lemma DecimalInjective(m: nat, n: nat)
    requires Decimal(m) == Decimal(n)
    ensures m == n
  {
    DecimalRoundTrip(m);
    DecimalRoundTrip(n);
  }

  /** The number of occurrences of ch in s. */
  function Count(s: string, ch: char): (c: nat)
    ensures c <= |s|
  {
    if |s| == 0 then 0 else Count(s[..|s| - 1], ch) + (if s[|s| - 1] == ch then 1 else 0)
  }

  lemma {:induction false} CountAppend(s: string, t: string, ch: char)
    ensures Count(s + t, ch) == Count(s, ch) + Count(t, ch)
  {
    if |t| > 0 {
      assert (s + t)[..|s + t| - 1] == s + t[..|t| - 1];
      CountAppend(s, t[..|t| - 1], ch);
    } else {
      assert s + t == s;
    }
  }

  lemma {:induction false} CountAbsent(s: string, ch: char)
    requires ch !in s
    ensures Count(s, ch) == 0
  {
    if |s| > 0 {
      CountAbsent(s[..|s| - 1], ch);
    }
  }

  /** The parts laid end to end with sep between consecutive parts. */
  function Join(parts: seq<string>, sep: char): string
  {
    if |parts| == 0 then ""
    else if |parts| == 1 then parts[0]
    else parts[0] + [sep] + Join(parts[1..], sep)
  }

  /** The maximal sep-free pieces of s, in order; there is always at least one. */
  function Split(s: string, sep: char): (parts: seq<string>)
    ensures |parts| >= 1
  {
    if |s| == 0 then [""]
    else
      var rest := Split(s[1..], sep);
      if s[0] == sep then [""] + rest else [[s[0]] + rest[0]] + rest[1..]
  }

  /** A sep-free prefix joins the first piece. */
  lemma {:induction false} SplitPrefix(p: string, t: string, sep: char)
    requires sep !in p
    ensures Split(p + t, sep) == [p + Split(t, sep)[0]] + Split(t, sep)[1..]
  {
    if |p| > 0 {
      assert (p + t)[1..] == p[1..] + t;
      SplitPrefix(p[1..], t, sep);
      assert [p[0]] + (p[1..] + Split(t, sep)[0]) == p + Split(t, sep)[0];
    } else {
      var parts := Split(t, sep);
      assert p + t == t;
      assert p + parts[0] == parts[0];
      assert [parts[0]] + parts[1..] == parts;
    }
  }

  /** Splitting undoes joining when no part holds the separator. */
  lemma {:induction false} SplitJoin(parts: seq<string>, sep: char)
    requires |parts| >= 1
    requires forall t :: 0 <= t < |parts| ==> sep !in parts[t]
    ensures Split(Join(parts, sep), sep) == parts
  {
    if |parts| == 1 {
      SplitPrefix(parts[0], "", sep);
      assert parts[0] + "" == parts[0];
    } else {
      var rest := Join(parts[1..], sep);
      SplitJoin(parts[1..], sep);
      var tail := [sep] + rest;
      assert parts[0] + [sep] + rest == parts[0] + tail;
      assert tail[1..] == rest;
      assert Split(tail, sep) == [""] + parts[1..];
      assert Join(parts, sep) == parts[0] + tail;
      SplitPrefix(parts[0], tail, sep);
      assert Split(Join(parts, sep), sep) == [parts[0] + ""] + parts[1..];
      assert parts[0] + "" == parts[0];
      assert [parts[0]] + parts[1..] == parts;
    }
  }

  /** A join of k >= 1 sep-free parts holds k - 1 separators. */
  lemma {:induction false} JoinCount(parts: seq<string>, sep: char)
    requires |parts| >= 1
    requires forall t :: 0 <= t < |parts| ==> sep !in parts[t]
    ensures Count(Join(parts, sep), sep) == |parts| - 1
  {
    CountAbsent(parts[0], sep);
    if |parts| > 1 {
      JoinCount(parts[1..], sep);
      CountAppend(parts[0], [sep], sep);
      assert Count([sep], sep) == 1 by {
        assert [sep][..0] == [];
      }
      CountAppend(parts[0] + [sep], Join(parts[1..], sep), sep);
    }
  }

  /** The lines laid end to end, each followed by the terminator. */
  function Terminated(lines: seq<string>, term: char): string
  {
    if |lines| == 0 then "" else Terminated(lines[..|lines| - 1], term) + lines[|lines| - 1] + [term]
  }

  /** Appending a part to a join. */
  lemma {:induction false} JoinSnoc(parts: seq<string>, p: string, sep: char)
    ensures Join(parts + [p], sep) == if |parts| == 0 then p else Join(parts, sep) + [sep] + p
  {
    if |parts| > 1 {
      assert (parts + [p])[1..] == parts[1..] + [p];
      JoinSnoc(parts[1..], p, sep);
    } else if |parts| == 1 {
      assert (parts + [p])[1..] == [p];
    } else {
      assert parts + [p] == [p];
    }
  }

  /** Terminated lines are the lines joined by the terminator, with an empty
      piece after the final terminator. */
  lemma {:induction false} TerminatedIsJoin(lines: seq<string>, term: char)
    ensures Terminated(lines, term) == Join(lines + [""], term)
  {
    if |lines| > 0 {
      var init := lines[..|lines| - 1];
      var last := lines[|lines| - 1];
      TerminatedIsJoin(init, term);
      assert lines == init + [last];
      JoinSnoc(init, "", term);
      JoinSnoc(init, last, term);
      JoinSnoc(lines, "", term);
    } else {
      assert lines + [""] == [""];
    }
  }
}
