/** The parts of Rust's `str` the modelled code relies on. */
module Text {
  // Unicode White_Space, as `char::is_whitespace` has it.
  predicate IsWhitespace(c: char) {
    '\U{0009}' <= c <= '\U{000D}' || c == ' ' || c == '\U{0085}' || c == '\U{00A0}' || c == '\U{1680}' ||
    '\U{2000}' <= c <= '\U{200A}' || c == '\U{2028}' || c == '\U{2029}' || c == '\U{202F}' || c == '\U{205F}' ||
    c == '\U{3000}'
  }

  function TrimStart(s: string): string {
    if s != "" && IsWhitespace(s[0]) then TrimStart(s[1..]) else s
  }

  function TrimEnd(s: string): string {
    if s != "" && IsWhitespace(s[|s| - 1]) then TrimEnd(s[..|s| - 1]) else s
  }

  function Trim(s: string): string { TrimStart(TrimEnd(s)) }

  // `trim_end_matches(c)`
  function TrimEndChar(s: string, c: char): string {
    if s != "" && s[|s| - 1] == c then TrimEndChar(s[..|s| - 1], c) else s
  }

  // `to_ascii_lowercase`
  function AsciiLower(s: string): string {
    seq(|s|, i requires 0 <= i < |s| => if 'A' <= s[i] <= 'Z' then s[i] - 'A' + 'a' else s[i])
  }

  // Trailing whitespace does not matter to a trim.
  lemma {:induction false} TrimEndTwice(s: string)
    ensures TrimEnd(TrimEnd(s)) == TrimEnd(s)
  {
    if s != "" && IsWhitespace(s[|s| - 1]) {
      TrimEndTwice(s[..|s| - 1]);
    }
  }
}

/** What trimming, lower-casing and splitting give, said without the functions that do it. */
module TextCorrect {
  import opened Options
  import opened Text
  import opened Splitting

  // The code points of Unicode White_Space.
  const SPACES := {9, 10, 11, 12, 13, 32, 0x85, 0xA0, 0x1680, 0x2000, 0x2001, 0x2002, 0x2003, 0x2004, 0x2005, 0x2006,
                   0x2007, 0x2008, 0x2009, 0x200A, 0x2028, 0x2029, 0x202F, 0x205F, 0x3000}

  predicate Space(c: char) { c as int in SPACES }

  predicate Spaces(s: string) { forall i :: 0 <= i < |s| ==> Space(s[i]) }

  // Nothing to trim at the one end or the other.
  predicate StartsTight(s: string) { s == "" || !Space(s[0]) }

  predicate EndsTight(s: string) { s == "" || !Space(s[|s| - 1]) }

  // `t` is the text without the whitespace around it.
  ghost predicate Trims(s: string, t: string) {
    StartsTight(t) && EndsTight(t) && exists a, b :: Around(s, a, t, b) && Spaces(a) && Spaces(b)
  }

  predicate Around(s: string, a: string, t: string, b: string) { s == a + t + b }

  lemma SpaceIs(c: char)
    ensures IsWhitespace(c) <==> Space(c)
  {
  }

  lemma {:induction false} TrimStartExactly(s: string) returns (a: string)
    ensures Spaces(a) && s == a + TrimStart(s) && StartsTight(TrimStart(s))
  {
    a := "";
    if s != "" {
      SpaceIs(s[0]);
      if IsWhitespace(s[0]) {
        var b := TrimStartExactly(s[1..]);
        a := [s[0]] + b;
        assert s == [s[0]] + s[1..];
      }
    }
  }

  lemma {:induction false} TrimEndExactly(s: string) returns (b: string)
    ensures Spaces(b) && s == TrimEnd(s) + b && EndsTight(TrimEnd(s))
  {
    b := "";
    if s != "" {
      var n := |s| - 1;
      SpaceIs(s[n]);
      if IsWhitespace(s[n]) {
        var front := TrimEndExactly(s[..n]);
        b := front + [s[n]];
        assert s == s[..n] + [s[n]];
      }
    }
  }

  lemma TrimExactly(s: string)
    ensures Trims(s, Trim(s))
  {
    var b := TrimEndExactly(s);
    var a := TrimStartExactly(TrimEnd(s));
    var t := Trim(s);
    if t != "" {
      assert t[|t| - 1] == TrimEnd(s)[|TrimEnd(s)| - 1];
    }
    assert Around(s, a, t, b);
  }

  // There is only one such text.
  lemma TrimsOne(s: string, t: string)
    ensures Trims(s, t) <==> t == Trim(s)
  {
    TrimExactly(s);
    if Trims(s, t) {
      TrimsAlike(s, t, Trim(s));
    }
  }

  // Where the text without its whitespace is.
  ghost predicate Within(s: string, t: string, m: nat, n: nat) {
    m <= n <= |s| && t == s[m..n] && (forall i: nat :: i < m || n <= i < |s| ==> Space(s[i])) &&
    (m < n ==> !Space(s[m]) && !Space(s[n - 1]))
  }

  lemma TrimsWithin(s: string, t: string) returns (m: nat, n: nat)
    requires Trims(s, t)
    ensures Within(s, t, m, n)
  {
    var a, b :| Around(s, a, t, b) && Spaces(a) && Spaces(b);
    m, n := |a|, |a| + |t|;
    forall i: nat | i < m || n <= i < |s|
      ensures Space(s[i])
    {
      assert s[i] == if i < m then a[i] else b[i - n];
    }
  }

  lemma TrimsAlike(s: string, t: string, u: string)
    requires Trims(s, t) && Trims(s, u)
    ensures t == u
  {
    var m, n := TrimsWithin(s, t);
    var k, l := TrimsWithin(s, u);
    if m < n || k < l {
      assert m == k && n == l;
    }
  }

  // All but the run of one character at the end.
  lemma {:induction false} TrimEndCharExactly(s: string, c: char) returns (n: nat)
    ensures n == |TrimEndChar(s, c)| <= |s| && TrimEndChar(s, c) == s[..n] && (n > 0 ==> s[n - 1] != c)
    ensures forall i :: n <= i < |s| ==> s[i] == c
  {
    n := |s|;
    if s != "" && s[|s| - 1] == c {
      n := TrimEndCharExactly(s[..|s| - 1], c);
      assert s[..|s| - 1][..n] == s[..n];
    }
  }

  lemma {:induction false} TrimEndIs(x: string, w: string)
    requires EndsTight(x) && Spaces(w)
    ensures TrimEnd(x + w) == x
  {
    if w == "" {
      assert x + w == x;
      if x != "" {
        SpaceIs(x[|x| - 1]);
      }
    } else {
      var n := |w| - 1;
      SpaceIs(w[n]);
      assert (x + w)[..|x + w| - 1] == x + w[..n];
      TrimEndIs(x, w[..n]);
    }
  }

  predicate Only(s: string, c: char) { forall i :: 0 <= i < |s| ==> s[i] == c }

  lemma {:induction false} TrimEndCharIs(x: string, run: string, c: char)
    requires Only(run, c) && (x == "" || x[|x| - 1] != c)
    ensures TrimEndChar(x + run, c) == x
  {
    if run == "" {
      assert x + run == x;
    } else {
      assert (x + run)[..|x + run| - 1] == x + run[..|run| - 1];
      TrimEndCharIs(x, run[..|run| - 1], c);
    }
  }

  // In ASCII a small letter is 32 code points after its capital; every other character stays.
  predicate Lowers(c: char, d: char) { d as int == if 65 <= c as int <= 90 then c as int + 32 else c as int }

  // `t` is the text in small letters.
  predicate LowersTo(s: string, t: string) { |t| == |s| && forall i :: 0 <= i < |s| ==> Lowers(s[i], t[i]) }

  lemma LowerExactly(s: string)
    ensures LowersTo(s, AsciiLower(s))
  {
  }

  lemma LowersOne(s: string, t: string)
    ensures LowersTo(s, t) <==> t == AsciiLower(s)
  {
  }

  /* ---- Splitting ---- */

  lemma {:induction false} SplitFirstExactly(text: string, c: char)
    ensures SplitFirst(text, c).None? <==> c !in text
    ensures SplitFirst(text, c).Some? ==>
      var parts := SplitFirst(text, c).value; text == parts.0 + [c] + parts.1 && c !in parts.0
  {
    if text != "" {
      SplitFirstExactly(text[1..], c);
      assert text == [text[0]] + text[1..];
    }
  }

  function Rejoined(parts: seq<string>, c: char): string
    requires parts != []
  {
    if |parts| == 1 then parts[0] else parts[0] + [c] + Rejoined(parts[1..], c)
  }

  // The parts hold no separator, and with one between any two of them are the text.
  lemma {:induction false} SplitAllExactly(text: string, c: char)
    ensures Rejoined(SplitAll(text, c), c) == text
    ensures forall part <- SplitAll(text, c) :: c !in part
    decreases |text|
  {
    SplitFirstExactly(text, c);
    var first := SplitFirst(text, c);
    if first.Some? {
      SplitShorter(text, c);
      SplitAllExactly(first.value.1, c);
      assert SplitAll(text, c)[1..] == SplitAll(first.value.1, c);
    }
  }

  // And any list of such parts is split again.
  lemma {:induction false} SplitRejoined(parts: seq<string>, c: char)
    requires parts != [] && forall part <- parts :: c !in part
    ensures SplitAll(Rejoined(parts, c), c) == parts
    decreases |parts|
  {
    if |parts| == 1 {
      SplitFirstExactly(parts[0], c);
    } else {
      SplitFirstAt(parts[0], c, Rejoined(parts[1..], c));
      SplitRejoined(parts[1..], c);
    }
  }
}

/** Decimal numbers as text. */
module Numbers {
  predicate IsDigit(c: char) { '0' <= c <= '9' }

  predicate AllDigits(s: string) { forall i :: 0 <= i < |s| ==> IsDigit(s[i]) }

  // `to_string` of a number.
  function Decimal(n: nat): (digits: string)
    ensures digits != "" && AllDigits(digits)
  {
    var last := ['0' + (n % 10) as char];
    if n < 10 then last else Decimal(n / 10) + last
  }

  function DigitsValue(digits: string): nat
    requires AllDigits(digits)
  {
    if digits == "" then 0
    else DigitsValue(digits[..|digits| - 1]) * 10 + (digits[|digits| - 1] - '0') as nat
  }

  lemma {:induction false} DecimalValue(n: nat)
    ensures DigitsValue(Decimal(n)) == n
  {
    var s := Decimal(n);
    var last := s[|s| - 1];
    assert last == '0' + (n % 10) as char;
    assert (last - '0') as nat == n % 10;
    if n >= 10 {
      DecimalValue(n / 10);
      assert s[..|s| - 1] == Decimal(n / 10);
    } else {
      assert s[..|s| - 1] == "";
    }
  }

  // Different numbers are printed differently.
  lemma DecimalApart(a: nat, b: nat)
    requires Decimal(a) == Decimal(b)
    ensures a == b
  {
    DecimalValue(a);
    DecimalValue(b);
  }

  function Power10(k: nat): nat { if k == 0 then 1 else 10 * Power10(k - 1) }

  // The value of a number written with its highest place first.
  function PlaceValue(digits: string): nat
    requires AllDigits(digits)
  {
    if digits == "" then 0 else (digits[0] as int - 48) * Power10(|digits| - 1) + PlaceValue(digits[1..])
  }

  lemma {:induction false} PlaceValueLast(digits: string, last: char)
    requires AllDigits(digits) && IsDigit(last)
    ensures AllDigits(digits + [last]) && PlaceValue(digits + [last]) == 10 * PlaceValue(digits) + (last as int - 48)
  {
    var more := digits + [last];
    if digits == "" {
      assert more[1..] == "";
    } else {
      assert more[1..] == digits[1..] + [last];
      PlaceValueLast(digits[1..], last);
      var d, p := digits[0] as int - 48, Power10(|digits| - 1);
      assert d * (10 * p) == 10 * (d * p);
    }
  }

  // A number is printed with its highest place first and no zero before it.
  lemma {:induction false} DecimalPlaces(n: nat)
    ensures PlaceValue(Decimal(n)) == n && (|Decimal(n)| > 1 ==> Decimal(n)[0] != '0') &&
      (n > 0 ==> Decimal(n)[0] != '0')
  {
    var last := '0' + (n % 10) as char;
    if n < 10 {
      PlaceValueLast("", last);
      assert "" + [last] == [last];
    } else {
      DecimalPlaces(n / 10);
      PlaceValueLast(Decimal(n / 10), last);
    }
  }

  // And every number is read so.
  lemma {:induction false} DigitsRead(digits: string)
    requires AllDigits(digits)
    ensures DigitsValue(digits) == PlaceValue(digits)
  {
    if digits != "" {
      var n := |digits| - 1;
      DigitsRead(digits[..n]);
      PlaceValueLast(digits[..n], digits[n]);
      assert digits == digits[..n] + [digits[n]];
    }
  }
}

/** Rust's `split_once`, `rsplit_once` and `split` at a character. */
module Splitting {
  import opened Options

  // `split_once`
  function SplitFirst(text: string, c: char): Option<(string, string)> {
    if text == "" then None
    else if text[0] == c then Some(("", text[1..]))
    else
      var rest := SplitFirst(text[1..], c);
      if rest.None? then None else Some(([text[0]] + rest.value.0, rest.value.1))
  }

  // `rsplit_once`
  function SplitLast(text: string, c: char): Option<(string, string)> {
    if text == "" then None
    else
      var n := |text| - 1;
      if text[n] == c then Some((text[..n], ""))
      else
        var front := SplitLast(text[..n], c);
        if front.None? then None else Some((front.value.0, front.value.1 + [text[n]]))
  }

  // `split`
  function SplitAll(text: string, c: char): (parts: seq<string>)
    ensures parts != []
    decreases |text|
  {
    var first := SplitFirst(text, c);
    if first.None? then [text]
    else
      SplitShorter(text, c);
      [first.value.0] + SplitAll(first.value.1, c)
  }

  lemma {:induction false} SplitShorter(text: string, c: char)
    requires SplitFirst(text, c).Some?
    ensures |SplitFirst(text, c).value.1| < |text|
  {
    if text[0] != c {
      SplitShorter(text[1..], c);
    }
  }

  lemma {:induction false} SplitFirstAt(a: string, c: char, b: string)
    requires c !in a
    ensures SplitFirst(a + [c] + b, c) == Some((a, b))
  {
    var text := a + [c] + b;
    if a == "" {
      assert text[1..] == b;
    } else {
      assert text[1..] == a[1..] + [c] + b;
      SplitFirstAt(a[1..], c, b);
      assert a == [a[0]] + a[1..];
    }
  }

  lemma {:induction false} SplitLastAt(a: string, c: char, b: string)
    requires c !in b
    ensures SplitLast(a + [c] + b, c) == Some((a, b))
  {
    var text := a + [c] + b;
    if b == "" {
      assert text[..|text| - 1] == a;
    } else {
      var n := |b| - 1;
      assert text[..|text| - 1] == a + [c] + b[..n];
      SplitLastAt(a, c, b[..n]);
      assert b == b[..n] + [b[n]];
    }
  }

  // The last part has no separator.
  lemma {:induction false} SplitLastParts(text: string, c: char)
    ensures SplitLast(text, c).None? <==> c !in text
    ensures SplitLast(text, c).Some? ==>
      var parts := SplitLast(text, c).value; text == parts.0 + [c] + parts.1 && c !in parts.1
  {
    if text != "" {
      var n := |text| - 1;
      SplitLastParts(text[..n], c);
      assert text == text[..n] + [text[n]];
    }
  }
}
