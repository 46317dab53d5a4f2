/** Decimal numerals, prefixes and the byte order SQLite compares text by. */
module Text {

  function Digit(d: nat): char
    requires d < 10
  {
    "0123456789"[d]
  }

  predicate IsDigit(c: char) { '0' <= c <= '9' }

  /** strconv.Itoa of a non-negative number. */
  function Decimal(n: nat): (s: string)
    ensures s != [] && forall i :: 0 <= i < |s| ==> IsDigit(s[i])
  {
    if n < 10 then [Digit(n)] else Decimal(n / 10) + [Digit(n % 10)]
  }

  /** strconv.FormatInt(n, 10). */
  function FormatInt(n: int): string {
    if n < 0 then "-" + Decimal(-n) else Decimal(n)
  }

  lemma DigitValue(d: nat)
    requires d < 10
    ensures Digit(d) == '0' + d as char
  {
  }

  /** Different numbers have different numerals. */
  lemma {:induction false} DecimalInjective(m: nat, n: nat)
    requires Decimal(m) == Decimal(n)
    ensures m == n
    decreases m + n
  {
    DigitValue(m % 10);
    DigitValue(n % 10);
    var s, t := Decimal(m), Decimal(n);
    assert s[|s| - 1] == Digit(m % 10) && t[|t| - 1] == Digit(n % 10);
    assert (m < 10 <==> |s| == 1) && (n < 10 <==> |t| == 1);
    if m < 10 {
    } else {
      assert s[..|s| - 1] == Decimal(m / 10) && t[..|t| - 1] == Decimal(n / 10);
      DecimalInjective(m / 10, n / 10);
    }
  }

  lemma FormatIntInjective(m: int, n: int)
    requires FormatInt(m) == FormatInt(n)
    ensures m == n
  {
    assert m >= 0 ==> IsDigit(FormatInt(m)[0]);
    assert n >= 0 ==> IsDigit(FormatInt(n)[0]);
    if m < 0 {
      assert FormatInt(m)[1..] == Decimal(-m) && FormatInt(n)[1..] == Decimal(-n);
      DecimalInjective(-m, -n);
    } else {
      DecimalInjective(m, n);
    }
  }

  /** A numeral holds digits and a sign, and nothing that separates fields. */
  lemma FormatIntChars(n: int, i: nat)
    requires i < |FormatInt(n)|
    ensures FormatInt(n)[i] == '-' || IsDigit(FormatInt(n)[i])
  {
    if n < 0 && i > 0 { assert FormatInt(n)[i] == Decimal(-n)[i - 1]; }
  }

  /** A text up to the first separator is determined by the whole. */
  lemma SplitAtFirst(a: string, b: string, c: char, rest: string, other: string)
    requires c !in a && c !in b && a + [c] + rest == b + [c] + other
    ensures a == b && rest == other
  {
    var s, t := a + [c] + rest, b + [c] + other;
    forall i | 0 <= i < |a| ensures s[i] != c { assert s[i] == a[i]; }
    forall i | 0 <= i < |b| ensures t[i] != c { assert t[i] == b[i]; }
    assert s[|a|] == c && t[|b|] == c;
    assert a == s[..|a|] && b == t[..|b|] && rest == s[|a| + 1..] && other == t[|b| + 1..];
  }

  /** A text after the last separator is determined by the whole. */
  lemma SplitAtLast(rest: string, other: string, c: char, a: string, b: string)
    requires c !in a && c !in b && rest + [c] + a == other + [c] + b
    ensures a == b && rest == other
  {
    var s, t := rest + [c] + a, other + [c] + b;
    forall i | |rest| < i < |s| ensures s[i] != c { assert s[i] == a[i - |rest| - 1]; }
    forall i | |other| < i < |t| ensures t[i] != c { assert t[i] == b[i - |other| - 1]; }
    assert s[|rest|] == c && t[|other|] == c;
    assert rest == s[..|rest|] && other == t[..|other|] && a == s[|rest| + 1..] && b == t[|other| + 1..];
  }

  predicate HasPrefix(s: string, prefix: string): (starts: bool)
    ensures starts <==> |prefix| <= |s| && s[..|prefix|] == prefix
  {
    prefix <= s
  }

  /** unicode.IsSpace: the characters strings.TrimSpace removes. */
  predicate IsSpace(c: char) {
    || c == ' ' || '\t' <= c <= '\r' || c == '\U{0085}' || c == '\U{00A0}' || c == '\U{1680}'
    || '\U{2000}' <= c <= '\U{200A}' || c == '\U{2028}' || c == '\U{2029}' || c == '\U{202F}'
    || c == '\U{205F}' || c == '\U{3000}'
  }

  function TrimLeft(s: string): string {
    if s != [] && IsSpace(s[0]) then TrimLeft(s[1..]) else s
  }

  function TrimRight(s: string): string {
    if s != [] && IsSpace(s[|s| - 1]) then TrimRight(s[..|s| - 1]) else s
  }

  function TrimSpace(s: string): string { TrimRight(TrimLeft(s)) }

  /** t is what is left of s without the blanks at its ends. */
  ghost predicate Trims(t: string, s: string) {
    && (t == "" || (!IsSpace(t[0]) && !IsSpace(t[|t| - 1])))
    && exists before, after :: s == before + t + after && AllBlank(before) && AllBlank(after)
  }

  predicate AllBlank(s: string) { forall i :: 0 <= i < |s| ==> IsSpace(s[i]) }

  lemma {:induction false} TrimLeftTrims(s: string)
    ensures exists before :: s == before + TrimLeft(s) && AllBlank(before)
    ensures TrimLeft(s) == "" || !IsSpace(TrimLeft(s)[0])
  {
    if s != "" && IsSpace(s[0]) {
      TrimLeftTrims(s[1..]);
      var before :| s[1..] == before + TrimLeft(s[1..]) && AllBlank(before);
      assert s == ([s[0]] + before) + TrimLeft(s) && AllBlank([s[0]] + before);
    } else {
      assert s == "" + TrimLeft(s) && AllBlank("");
    }
  }

  lemma {:induction false} TrimRightTrims(s: string)
    ensures exists after :: s == TrimRight(s) + after && AllBlank(after)
    ensures TrimRight(s) == "" || !IsSpace(TrimRight(s)[|TrimRight(s)| - 1])
    ensures TrimRight(s) <= s
  {
    if s != "" && IsSpace(s[|s| - 1]) {
      var rest := s[..|s| - 1];
      TrimRightTrims(rest);
      var after :| rest == TrimRight(rest) + after && AllBlank(after);
      assert s == TrimRight(s) + (after + [s[|s| - 1]]) && AllBlank(after + [s[|s| - 1]]);
    } else {
      assert s == TrimRight(s) + "" && AllBlank("");
    }
  }

  lemma TrimSpaceTrims(s: string)
    ensures Trims(TrimSpace(s), s)
  {
    hide IsSpace, AllBlank, TrimLeft, TrimRight;
    TrimLeftTrims(s);
    TrimRightTrims(TrimLeft(s));
    var before :| s == before + TrimLeft(s) && AllBlank(before);
    var after :| TrimLeft(s) == TrimSpace(s) + after && AllBlank(after);
    TrimsBetween(s, before, TrimSpace(s), after);
  }

  lemma TrimsBetween(s: string, before: string, t: string, after: string)
    requires s == before + (t + after) && AllBlank(before) && AllBlank(after)
    requires t + after == "" || !IsSpace((t + after)[0])
    requires t == "" || !IsSpace(t[|t| - 1])
    ensures Trims(t, s)
  {
    hide IsSpace, AllBlank;
    assert s == before + t + after;
    if t != "" { assert t[0] == (t + after)[0]; }
  }

  /** Trimming a second time removes nothing. */
  lemma TrimSpaceAgain(s: string)
    ensures TrimSpace(TrimSpace(s)) == TrimSpace(s)
  {
    TrimSpaceTrims(s);
  }

  /** Lexicographic order on text, as in ORDER BY id and id > ?. */
  predicate Less(a: string, b: string) {
    b != [] && (a == [] || a[0] < b[0] || (a[0] == b[0] && Less(a[1..], b[1..])))
  }

  lemma {:induction false} LessTransitive(a: string, b: string, c: string)
    requires Less(a, b) && Less(b, c)
    ensures Less(a, c)
  {
    if a == [] || a[0] < b[0] || b[0] < c[0] {
    } else {
      LessTransitive(a[1..], b[1..], c[1..]);
    }
  }

  lemma {:induction false} LessTotal(a: string, b: string)
    ensures a == b || Less(a, b) || Less(b, a)
    ensures !(Less(a, b) && Less(b, a))
    ensures !Less(a, a)
  {
    if a == [] {
    } else {
      LessTotalSelf(a);
      if b != [] && a[0] == b[0] {
        LessTotal(a[1..], b[1..]);
        if a[1..] == b[1..] {
          assert a == [a[0]] + a[1..] && b == [b[0]] + b[1..];
        }
      }
    }
  }

  lemma {:induction false} LessTotalSelf(a: string)
    ensures !Less(a, a)
  {
    if a == [] {
    } else {
      LessTotalSelf(a[1..]);
    }
  }
}
