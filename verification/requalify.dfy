/** References to one schema rewritten as references to another. */
module Requalification {
  import opened Options
  import opened Snapshots
  import opened Identifiers

  // A character that makes a following `name.` the end of some other name.
  predicate Joins(alphanumeric: char -> bool, c: char) { IsNameChar(alphanumeric, c) || c == '.' }

  predicate Inside(alphanumeric: char -> bool, before: string) {
    before != "" && Joins(alphanumeric, before[|before| - 1])
  }

  predicate StartsWith(text: string, prefix: string) { prefix <= text }

  // The text after `before` with every qualifier `needle` that starts a name replaced.
  function Rewritten(alphanumeric: char -> bool, needle: string, replacement: string, before: string,
                     text: string): string
    requires needle != ""
    decreases |text|
  {
    if StartsWith(text, needle) then
      (if Inside(alphanumeric, before) then needle else replacement) +
      Rewritten(alphanumeric, needle, replacement, needle, text[|needle|..])
    else if text == "" then ""
    else [text[0]] + Rewritten(alphanumeric, needle, replacement, [text[0]], text[1..])
  }

  function Qualifier(schema: string): string { QuoteIdent(schema) + ['.'] }

  function Requalified(alphanumeric: char -> bool, text: string, from: string, to: string): string {
    Rewritten(alphanumeric, Qualifier(from), Qualifier(to), "", text)
  }

  /* ---- The loop ---- */

  // `str::find`
  method Find(text: string, needle: string) returns (position: Option<nat>)
    ensures position.Some? ==> position.value <= |text| && StartsWith(text[position.value..], needle)
    ensures forall i: nat :: i <= |text| && (position.Some? ==> i < position.value) ==> !StartsWith(text[i..], needle)
  {
    for i := 0 to |text| + 1
      invariant forall k: nat :: k < i ==> !StartsWith(text[k..], needle)
    {
      if StartsWith(text[i..], needle) {
        return Some(i);
      }
    }
    return None;
  }

  // Only the last character of what comes before matters.
  lemma SameEnd(alphanumeric: char -> bool, needle: string, replacement: string, before: string, other: string,
                text: string)
    requires needle != ""
    requires Inside(alphanumeric, before) <==> Inside(alphanumeric, other)
    ensures Rewritten(alphanumeric, needle, replacement, before, text) ==
      Rewritten(alphanumeric, needle, replacement, other, text)
  {
  }

  lemma CopiedFirst(alphanumeric: char -> bool, needle: string, replacement: string, before: string, text: string)
    requires needle != "" && text != "" && !StartsWith(text, needle)
    ensures Rewritten(alphanumeric, needle, replacement, before, text) ==
            [text[0]] + Rewritten(alphanumeric, needle, replacement, [text[0]], text[1..])
  {
  }

  lemma ReplacedHere(alphanumeric: char -> bool, needle: string, replacement: string, before: string, text: string,
                     after: string)
    requires needle != "" && StartsWith(text, needle)
    requires after != "" && after[|after| - 1] == needle[|needle| - 1]
    ensures Rewritten(alphanumeric, needle, replacement, before, text) ==
            (if Inside(alphanumeric, before) then needle else replacement) +
            Rewritten(alphanumeric, needle, replacement, after, text[|needle|..])
  {
    SameEnd(alphanumeric, needle, replacement, needle, after, text[|needle|..]);
  }

  lemma NothingLeft(alphanumeric: char -> bool, needle: string, replacement: string, before: string)
    requires needle != ""
    ensures Rewritten(alphanumeric, needle, replacement, before, "") == ""
  {
  }

  lemma SameLast(alphanumeric: char -> bool, before: string, text: string, n: nat)
    requires 0 < n <= |text|
    ensures Inside(alphanumeric, [text[0]] + text[1..n]) <==> Inside(alphanumeric, before + text[..n])
  {
    assert [text[0]] + text[1..n] == text[..n];
    assert (before + text[..n])[|before| + n - 1] == text[n - 1];
  }

  // Text before the first match is copied.
  lemma {:induction false} CopiedUpTo(alphanumeric: char -> bool, needle: string, replacement: string, before: string,
                                      text: string, n: nat)
    requires needle != "" && n <= |text|
    requires forall i: nat :: i < n ==> !StartsWith(text[i..], needle)
    ensures Rewritten(alphanumeric, needle, replacement, before, text) ==
            text[..n] + Rewritten(alphanumeric, needle, replacement, before + text[..n], text[n..])
    decreases n
  {
    hide Rewritten, StartsWith, Inside;
    if n == 0 {
      assert text[..0] == "" && text[0..] == text && before + "" == before;
    } else {
      assert text[0..] == text;
      forall i: nat | i < n - 1
        ensures !StartsWith(text[1..][i..], needle)
      {
        assert text[1..][i..] == text[i + 1..];
      }
      CopiedFirst(alphanumeric, needle, replacement, before, text);
      CopiedUpTo(alphanumeric, needle, replacement, [text[0]], text[1..], n - 1);
      SameLast(alphanumeric, before, text, n);
      assert text[1..][..n - 1] == text[1..n] && text[1..][n - 1..] == text[n..];
      assert text[..n] == [text[0]] + text[1..n];
      SameEnd(alphanumeric, needle, replacement, [text[0]] + text[1..n], before + text[..n], text[n..]);
    }
  }

  // One round of the loop.
  lemma OneMatch(alphanumeric: char -> bool, needle: string, replacement: string, output: string, rest: string, p: nat)
    requires needle != "" && replacement != "" && replacement[|replacement| - 1] == needle[|needle| - 1]
    requires p <= |rest| && StartsWith(rest[p..], needle)
    requires forall i: nat :: i < p ==> !StartsWith(rest[i..], needle)
    ensures p + |needle| <= |rest|
    ensures var copied := output + rest[..p];
      var longer := copied + (if Inside(alphanumeric, copied) then needle else replacement);
      output + Rewritten(alphanumeric, needle, replacement, output, rest) ==
      longer + Rewritten(alphanumeric, needle, replacement, longer, rest[p + |needle|..])
  {
    hide Rewritten, Inside;
    CopiedUpTo(alphanumeric, needle, replacement, output, rest, p);
    var copied, after := output + rest[..p], rest[p..];
    var longer := copied + (if Inside(alphanumeric, copied) then needle else replacement);
    assert after[|needle|..] == rest[p + |needle|..];
    ReplacedHere(alphanumeric, needle, replacement, copied, after, longer);
  }

  // After the last one.
  lemma NoMatch(alphanumeric: char -> bool, needle: string, replacement: string, output: string, rest: string)
    requires needle != "" && forall i: nat :: i <= |rest| ==> !StartsWith(rest[i..], needle)
    ensures Rewritten(alphanumeric, needle, replacement, output, rest) == rest
  {
    CopiedUpTo(alphanumeric, needle, replacement, output, rest, |rest|);
    NothingLeft(alphanumeric, needle, replacement, output + rest);
    assert rest[..|rest|] == rest && rest[|rest|..] == "";
  }

  method Requalify(alphanumeric: char -> bool, text: string, from: string, to: string) returns (output: string)
    ensures output == Requalified(alphanumeric, text, from, to)
  {
    hide Rewritten, Inside, StartsWith;
    var needle, replacement := Qualifier(from), Qualifier(to);
    output := "";
    assert "" + Rewritten(alphanumeric, needle, replacement, "", text) ==
      Rewritten(alphanumeric, needle, replacement, "", text);
    var rest := text;
    var position: Option<nat> := Find(rest, needle);
    while position.Some?
      invariant Requalified(alphanumeric, text, from, to) ==
                output + Rewritten(alphanumeric, needle, replacement, output, rest)
      invariant position.Some? ==> position.value <= |rest| && StartsWith(rest[position.value..], needle)
      invariant forall i: nat ::
        i <= |rest| && (position.Some? ==> i < position.value) ==> !StartsWith(rest[i..], needle)
      decreases |rest|
    {
      OneMatch(alphanumeric, needle, replacement, output, rest, position.value);
      output := output + rest[..position.value];
      output := output + (if Inside(alphanumeric, output) then needle else replacement);
      rest := rest[position.value + |needle|..];
      position := Find(rest, needle);
    }
    NoMatch(alphanumeric, needle, replacement, output, rest);
    output := output + rest;
  }

  /* ---- Which qualifiers are replaced ---- */

  // The qualifier goes on with another name if one of these characters is before it.
  predicate EndsName(alphanumeric: char -> bool, before: string) {
    before != "" &&
    (before[|before| - 1] == '_' || before[|before| - 1] == '$' || before[|before| - 1] == '.' ||
     alphanumeric(before[|before| - 1]))
  }

  function Spliced(needle: string, pieces: seq<string>): string {
    if pieces == [] then "" else if |pieces| == 1 then pieces[0]
    else pieces[0] + needle + Spliced(needle, pieces[1..])
  }

  // The pieces between the leftmost qualifiers that do not overlap.
  ghost predicate Leftmost(needle: string, pieces: seq<string>) {
    pieces != [] &&
    if |pieces| == 1 then forall j: nat :: j <= |pieces[0]| ==> !StartsWith(pieces[0][j..], needle)
    else
      (forall j: nat :: j < |pieces[0]| ==> !StartsWith(Spliced(needle, pieces)[j..], needle)) &&
      Leftmost(needle, pieces[1..])
  }

  // Each is replaced unless it goes on with another name.
  function Exchanged(alphanumeric: char -> bool, needle: string, replacement: string, before: string,
                     pieces: seq<string>): string
    decreases |pieces|
  {
    if pieces == [] then "" else if |pieces| == 1 then pieces[0]
    else
      pieces[0] + (if EndsName(alphanumeric, before + pieces[0]) then needle else replacement) +
      Exchanged(alphanumeric, needle, replacement, needle, pieces[1..])
  }

  lemma {:induction false} ExchangedExactly(alphanumeric: char -> bool, needle: string, replacement: string,
                                            before: string, pieces: seq<string>)
    requires needle != "" && Leftmost(needle, pieces)
    ensures Rewritten(alphanumeric, needle, replacement, before, Spliced(needle, pieces)) ==
            Exchanged(alphanumeric, needle, replacement, before, pieces)
    decreases |pieces|
  {
    hide Rewritten, StartsWith, EndsName, Inside;
    var text, n := Spliced(needle, pieces), |pieces[0]|;
    if |pieces| == 1 {
      CopiedUpTo(alphanumeric, needle, replacement, before, text, n);
      NothingLeft(alphanumeric, needle, replacement, before + text[..n]);
      assert text[..n] == text && text[n..] == "";
    } else {
      var rest := Spliced(needle, pieces[1..]);
      assert text == pieces[0] + (needle + rest);
      assert text[..n] == pieces[0] && text[n..] == needle + rest && (needle + rest)[|needle|..] == rest;
      PrefixStarts(needle, rest);
      EndsMeans(alphanumeric, before + pieces[0]);
      CopiedUpTo(alphanumeric, needle, replacement, before, text, n);
      ReplacedHere(alphanumeric, needle, replacement, before + pieces[0], needle + rest, needle);
      ExchangedExactly(alphanumeric, needle, replacement, needle, pieces[1..]);
    }
  }

  lemma PrefixStarts(needle: string, rest: string)
    ensures StartsWith(needle + rest, needle)
  {
  }

  lemma EndsMeans(alphanumeric: char -> bool, before: string)
    ensures EndsName(alphanumeric, before) <==> Inside(alphanumeric, before)
  {
  }

  lemma {:induction false} EverySplice(needle: string, text: string) returns (pieces: seq<string>)
    requires needle != ""
    ensures Leftmost(needle, pieces) && Spliced(needle, pieces) == text
    decreases |text|
  {
    if j: nat :| j <= |text| && StartsWith(text[j..], needle) {
      var i := FirstAt(needle, text, j);
      var more := EverySplice(needle, text[i + |needle|..]);
      pieces := [text[..i]] + more;
      assert pieces[1..] == more;
      assert text == text[..i] + text[i..] && text[i..] == needle + text[i..][|needle|..];
      assert text[i..][|needle|..] == text[i + |needle|..];
      assert Spliced(needle, pieces) == text;
    } else {
      pieces := [text];
    }
  }

  lemma {:induction false} FirstAt(needle: string, text: string, j: nat) returns (i: nat)
    requires j <= |text| && StartsWith(text[j..], needle)
    ensures i <= j && StartsWith(text[i..], needle) && forall k: nat :: k < i ==> !StartsWith(text[k..], needle)
  {
    if k: nat :| k < j && StartsWith(text[k..], needle) {
      i := FirstAt(needle, text, k);
    } else {
      i := j;
    }
  }

  // The rewrite of any text, for any two names: where the old qualifier is, and which of its places are left alone.
  lemma RequalifiedExactly(alphanumeric: char -> bool, text: string, from: string, to: string)
    ensures exists pieces ::
      Leftmost(QuoteIdent(from) + ['.'], pieces) && Spliced(QuoteIdent(from) + ['.'], pieces) == text &&
      Requalified(alphanumeric, text, from, to) ==
      Exchanged(alphanumeric, QuoteIdent(from) + ['.'], QuoteIdent(to) + ['.'], "", pieces)
  {
    hide Leftmost, Spliced, Exchanged, Rewritten, QuoteIdent;
    var needle := QuoteIdent(from) + ['.'];
    var pieces := EverySplice(needle, text);
    ExchangedExactly(alphanumeric, needle, QuoteIdent(to) + ['.'], "", pieces);
  }

  /* ---- What it promises ---- */

  // Requalifying a name to itself changes nothing.
  lemma {:induction false} RewrittenToItself(alphanumeric: char -> bool, needle: string, before: string, text: string)
    requires needle != ""
    ensures Rewritten(alphanumeric, needle, needle, before, text) == text
    decreases |text|
  {
    if StartsWith(text, needle) {
      RewrittenToItself(alphanumeric, needle, needle, text[|needle|..]);
    } else if text != "" {
      RewrittenToItself(alphanumeric, needle, [text[0]], text[1..]);
    }
  }

  lemma RequalifiedToItself(alphanumeric: char -> bool, text: string, schema: string)
    ensures Requalified(alphanumeric, text, schema, schema) == text
  {
    RewrittenToItself(alphanumeric, Qualifier(schema), "", text);
  }

  // The qualifier `needle` starts a name somewhere in the text after `before`.
  predicate MentionsAt(alphanumeric: char -> bool, needle: string, before: string, text: string, i: nat)
    requires i <= |text|
  {
    StartsWith(text[i..], needle) && !Inside(alphanumeric, before + text[..i])
  }

  ghost predicate Mentions(alphanumeric: char -> bool, needle: string, before: string, text: string) {
    exists i: nat :: i <= |text| && MentionsAt(alphanumeric, needle, before, text, i)
  }

  lemma MentionsNext(alphanumeric: char -> bool, needle: string, before: string, text: string)
    requires text != ""
    ensures Mentions(alphanumeric, needle, before, text) <==>
            MentionsAt(alphanumeric, needle, before, text, 0) || Mentions(alphanumeric, needle, [text[0]], text[1..])
  {
    forall i: nat | i < |text|
      ensures MentionsAt(alphanumeric, needle, before, text, i + 1) ==
        MentionsAt(alphanumeric, needle, [text[0]], text[1..], i)
    {
      assert text[1..][i..] == text[i + 1..];
      assert before + text[..i + 1] == before + [text[0]] + text[1..][..i];
    }
    if Mentions(alphanumeric, needle, before, text) {
      var i: nat :| i <= |text| && MentionsAt(alphanumeric, needle, before, text, i);
      assert i == 0 || MentionsAt(alphanumeric, needle, [text[0]], text[1..], i - 1);
    }
    if Mentions(alphanumeric, needle, [text[0]], text[1..]) {
      var i: nat :| i < |text| && MentionsAt(alphanumeric, needle, [text[0]], text[1..], i);
      assert MentionsAt(alphanumeric, needle, before, text, i + 1);
    }
  }

  // Only name characters before the one dot, which ends it.
  ghost predicate EndsInDot(alphanumeric: char -> bool, name: string) {
    name != "" && name[|name| - 1] == '.' &&
    forall i: nat :: i < |name| - 1 ==> IsNameChar(alphanumeric, name[i]) && name[i] != '.'
  }

  // A bare name with its dot.
  ghost predicate BareQualifier(alphanumeric: char -> bool, needle: string) {
    |needle| > 1 && EndsInDot(alphanumeric, needle)
  }

  lemma PlainQualifier(alphanumeric: char -> bool, schema: string)
    requires Alphabet(alphanumeric) && IsPlain(schema)
    ensures BareQualifier(alphanumeric, Qualifier(schema))
  {
    forall i: nat | i < |schema|
      ensures IsNameChar(alphanumeric, schema[i]) && schema[i] != '.'
    {
      assert schema[i] in schema;
    }
  }

  // Inside a name nothing is replaced, so the rewritten text goes on with `w.` exactly when the text does.
  lemma {:induction false} NameGoesOn(alphanumeric: char -> bool, needle: string, replacement: string, before: string,
                                      text: string,
                                      word: string)
    requires BareQualifier(alphanumeric, needle) && Inside(alphanumeric, before)
    requires forall c <- word :: IsNameChar(alphanumeric, c) && c != '.'
    ensures StartsWith(Rewritten(alphanumeric, needle, replacement, before, text), word + ['.']) <==>
      StartsWith(text, word + ['.'])
    decreases |word|
  {
    var wanted := word + ['.'];
    if StartsWith(text, needle) {
      var rest := Rewritten(alphanumeric, needle, replacement, needle, text[|needle|..]);
      SameDot(alphanumeric, needle, text[|needle|..], word);
      SameDot(alphanumeric, needle, rest, word);
      assert text == needle + text[|needle|..];
    } else if text != "" && word != "" {
      var rest := Rewritten(alphanumeric, needle, replacement, [text[0]], text[1..]);
      assert word + ['.'] == [word[0]] + (word[1..] + ['.']);
      StartsOne([text[0]] + rest, word[0], word[1..] + ['.']);
      StartsOne(text, word[0], word[1..] + ['.']);
      if text[0] == word[0] {
        assert word[0] in word;
        NameGoesOn(alphanumeric, needle, replacement, [text[0]], text[1..], word[1..]);
      }
    }
  }

  lemma StartsOne(text: string, c: char, rest: string)
    ensures StartsWith(text, [c] + rest) <==> text != "" && text[0] == c && StartsWith(text[1..], rest)
  {
    if StartsWith(text, [c] + rest) {
      assert text == [c] + rest + text[1 + |rest|..];
    }
    if text != "" && text[0] == c && StartsWith(text[1..], rest) {
      assert text == [c] + text[1..];
      assert text[1..] == rest + text[1..][|rest|..];
      assert text == [c] + rest + text[1..][|rest|..];
    }
  }

  // Two names that end in their only dot and start the same text are the same.
  lemma SameDot(alphanumeric: char -> bool, needle: string, rest: string, word: string)
    requires EndsInDot(alphanumeric, needle)
    requires forall c <- word :: c != '.'
    ensures StartsWith(needle + rest, word + ['.']) <==> word + ['.'] == needle
  {
    if StartsWith(needle + rest, word + ['.']) {
      var wanted := word + ['.'];
      assert forall i :: 0 <= i < |wanted| ==> (needle + rest)[i] == wanted[i];
      assert (needle + rest)[|word|] == '.';
      forall i | 0 <= i < |needle| - 1
        ensures (needle + rest)[i] != '.'
      {
        assert (needle + rest)[i] == needle[i];
      }
      assert |word| >= |needle| - 1;
      forall i | 0 <= i < |word|
        ensures (needle + rest)[i] != '.'
      {
        assert (needle + rest)[i] == word[i] && word[i] in word;
      }
      assert (needle + rest)[|needle| - 1] == '.';
      assert wanted == (needle + rest)[..|wanted|];
    }
  }

  // The rewritten text mentions the old schema nowhere, if it is not the new one.
  lemma {:induction false} NoLongerMentioned(alphanumeric: char -> bool, needle: string, replacement: string,
                                             before: string, text: string)
    requires BareQualifier(alphanumeric, needle) && BareQualifier(alphanumeric, replacement) && needle != replacement
    ensures !Mentions(alphanumeric, needle, before, Rewritten(alphanumeric, needle, replacement, before, text))
    decreases |text|
  {
    var output := Rewritten(alphanumeric, needle, replacement, before, text);
    if StartsWith(text, needle) {
      var first := if Inside(alphanumeric, before) then needle else replacement;
      var rest := Rewritten(alphanumeric, needle, replacement, needle, text[|needle|..]);
      NoLongerMentioned(alphanumeric, needle, replacement, needle, text[|needle|..]);
      SkipName(alphanumeric, needle, before, first, rest);
      MentionsSameEnd(alphanumeric, needle, first, needle, rest);
    } else if text == "" {
      assert output == "";
    } else {
      NoLongerMentioned(alphanumeric, needle, replacement, [text[0]], text[1..]);
      MentionsNext(alphanumeric, needle, before, output);
      var rest := Rewritten(alphanumeric, needle, replacement, [text[0]], text[1..]);
      assert output[1..] == rest;
      if StartsWith(output, needle) {
        StillStarts(alphanumeric, needle, replacement, text, needle);
      }
    }
  }

  lemma MentionsSameEnd(alphanumeric: char -> bool, needle: string, before: string, other: string, text: string)
    requires Inside(alphanumeric, before) <==> Inside(alphanumeric, other)
    ensures Mentions(alphanumeric, needle, before, text) <==> Mentions(alphanumeric, needle, other, text)
  {
    forall i: nat | i <= |text|
      ensures MentionsAt(alphanumeric, needle, before, text, i) == MentionsAt(alphanumeric, needle, other, text, i)
    {
      if i == 0 {
        assert before + text[..0] == before && other + text[..0] == other;
      } else {
        assert (before + text[..i])[|before| + i - 1] == text[i - 1] == (other + text[..i])[|other| + i - 1];
      }
    }
  }

  // A text whose first character is copied starts with a bare name after the rewrite exactly when it did before.
  lemma StillStarts(alphanumeric: char -> bool, needle: string, replacement: string, text: string, name: string)
    requires BareQualifier(alphanumeric, needle) && BareQualifier(alphanumeric, name) && text != "" &&
      !StartsWith(text, needle)
    ensures StartsWith([text[0]] + Rewritten(alphanumeric, needle, replacement, [text[0]], text[1..]), name) <==>
      StartsWith(text, name)
  {
    var rest := Rewritten(alphanumeric, needle, replacement, [text[0]], text[1..]);
    var word := name[1..|name| - 1];
    assert name == [name[0]] + (word + ['.']);
    StartsOne([text[0]] + rest, name[0], word + ['.']);
    StartsOne(text, name[0], word + ['.']);
    if text[0] == name[0] {
      NameGoesOn(alphanumeric, needle, replacement, [text[0]], text[1..], word);
    }
  }

  // Past its first character, a bare name that was not itself a mention contains none.
  lemma {:induction false} SkipName(alphanumeric: char -> bool, needle: string, before: string, name: string,
                                    rest: string)
    requires BareQualifier(alphanumeric, needle) && EndsInDot(alphanumeric, name)
    requires name == needle ==> Inside(alphanumeric, before)
    requires !Inside(alphanumeric, before) ==> |name| > 1
    ensures Mentions(alphanumeric, needle, before, name + rest) <==> Mentions(alphanumeric, needle, name, rest)
    decreases |name|
  {
    var text := name + rest;
    MentionsNext(alphanumeric, needle, before, text);
    assert text[1..] == name[1..] + rest;
    if !Inside(alphanumeric, before) && StartsWith(text, needle) {
      var word := needle[..|needle| - 1];
      assert needle == word + ['.'];
      SameDot(alphanumeric, name, rest, word);
    }
    if |name| == 1 {
      assert name[1..] + rest == rest && [text[0]] == name;
    } else {
      SkipName(alphanumeric, needle, [text[0]], name[1..], rest);
      MentionsSameEnd(alphanumeric, needle, name[1..], name, rest);
    }
  }

  // Where the new schema was not mentioned, its mentions afterwards are the rewritten ones: rewriting back undoes it.
  lemma {:induction false} RewrittenBack(alphanumeric: char -> bool, needle: string, replacement: string,
                                         before: string, text: string)
    requires BareQualifier(alphanumeric, needle) && BareQualifier(alphanumeric, replacement)
    requires !Mentions(alphanumeric, replacement, before, text) || needle == replacement
    ensures Rewritten(alphanumeric, replacement, needle, before,
                      Rewritten(alphanumeric, needle, replacement, before, text)) == text
    decreases |text|
  {
    if needle == replacement {
      RewrittenToItself(alphanumeric, needle, before, text);
      RewrittenToItself(alphanumeric, needle, before, text);
    } else if StartsWith(text, needle) {
      var tail := text[|needle|..];
      assert text == needle + tail;
      SkipName(alphanumeric, replacement, before, needle, tail);
      RewrittenBack(alphanumeric, needle, replacement, needle, tail);
      var rest := Rewritten(alphanumeric, needle, replacement, needle, tail);
      if Inside(alphanumeric, before) {
        CopyName(alphanumeric, replacement, needle, before, needle, rest);
      } else {
        assert (replacement + rest)[|replacement|..] == rest;
        SameEnd(alphanumeric, replacement, needle, replacement, needle, rest);
      }
    } else if text != "" {
      MentionsNext(alphanumeric, replacement, before, text);
      RewrittenBack(alphanumeric, needle, replacement, [text[0]], text[1..]);
      var rest := Rewritten(alphanumeric, needle, replacement, [text[0]], text[1..]);
      StillStarts(alphanumeric, needle, replacement, text, replacement);
      assert text[0..] == text && before + text[..0] == before;
      assert ([text[0]] + rest)[1..] == rest;
      if StartsWith(text, replacement) {
        assert Inside(alphanumeric, before) by {
          assert !MentionsAt(alphanumeric, replacement, before, text, 0);
        }
        CopiedAlike(alphanumeric, replacement, needle, before, [text[0]] + rest);
      }
    }
  }

  // A qualifier inside another name is copied, character by character or at once.
  lemma {:induction false} CopiedAlike(alphanumeric: char -> bool, needle: string, replacement: string, before: string,
                                       text: string)
    requires BareQualifier(alphanumeric, needle) && Inside(alphanumeric, before) && text != ""
    ensures Rewritten(alphanumeric, needle, replacement, before, text) ==
            [text[0]] + Rewritten(alphanumeric, needle, replacement, [text[0]], text[1..])
  {
    if StartsWith(text, needle) {
      var tail := text[|needle|..];
      assert text == needle + tail;
      assert text[1..] == needle[1..] + tail;
      CopyName(alphanumeric, needle, replacement, [text[0]], needle[1..], tail);
      SameEnd(alphanumeric, needle, replacement, needle[1..], needle, tail);
    }
  }

  lemma NotHere(alphanumeric: char -> bool, needle: string, name: string, rest: string)
    requires BareQualifier(alphanumeric, needle) && EndsInDot(alphanumeric, name) && name != needle
    ensures !StartsWith(name + rest, needle)
  {
    var word := needle[..|needle| - 1];
    assert needle == word + ['.'];
    SameDot(alphanumeric, name, rest, word);
  }

  // Past a bare name that is not the qualifier, or is inside another name, the rewrite goes on after its dot.
  lemma {:induction false} CopyName(alphanumeric: char -> bool, needle: string, replacement: string, before: string,
                                    name: string, rest: string)
    requires BareQualifier(alphanumeric, needle) && EndsInDot(alphanumeric, name)
    requires name != needle
    ensures Rewritten(alphanumeric, needle, replacement, before, name + rest) ==
            name + Rewritten(alphanumeric, needle, replacement, name, rest)
    decreases |name|
  {
    hide Rewritten;
    var text := name + rest;
    NotHere(alphanumeric, needle, name, rest);
    assert text[1..] == name[1..] + rest;
    CopiedFirst(alphanumeric, needle, replacement, before, text);
    if |name| == 1 {
      assert name[1..] + rest == rest && [text[0]] == name;
    } else if name[1..] == needle {
      assert Inside(alphanumeric, [text[0]]);
      assert (needle + rest)[|needle|..] == rest && StartsWith(needle + rest, needle);
      ReplacedHere(alphanumeric, needle, replacement, [text[0]], needle + rest, name);
      assert name == [text[0]] + needle;
    } else {
      CopyName(alphanumeric, needle, replacement, [text[0]], name[1..], rest);
      SameEnd(alphanumeric, needle, replacement, name[1..], name, rest);
      assert name == [name[0]] + name[1..];
    }
  }

  // Requalifying there and back gives back the text exactly when the text did not mention the new schema before.
  lemma RequalifiedBack(alphanumeric: char -> bool, text: string, from: string, to: string)
    requires Alphabet(alphanumeric) && IsPlain(from) && IsPlain(to)
    ensures Requalified(alphanumeric, Requalified(alphanumeric, text, from, to), to, from) == text <==>
            from == to || !Mentions(alphanumeric, Qualifier(to), "", text)
  {
    var needle, replacement := Qualifier(from), Qualifier(to);
    PlainQualifier(alphanumeric, from);
    PlainQualifier(alphanumeric, to);
    assert needle[..|from|] == from && replacement[..|to|] == to;
    if from == to || !Mentions(alphanumeric, replacement, "", text) {
      RewrittenBack(alphanumeric, needle, replacement, "", text);
    } else {
      NoLongerMentioned(alphanumeric, replacement, needle, "", Requalified(alphanumeric, text, from, to));
    }
  }

  // After the rewrite the old schema is not mentioned any more.
  lemma RequalifiedAway(alphanumeric: char -> bool, text: string, from: string, to: string)
    requires Alphabet(alphanumeric) && IsPlain(from) && IsPlain(to) && from != to
    ensures !Mentions(alphanumeric, Qualifier(from), "", Requalified(alphanumeric, text, from, to))
  {
    PlainQualifier(alphanumeric, from);
    PlainQualifier(alphanumeric, to);
    assert Qualifier(from)[..|from|] == from && Qualifier(to)[..|to|] == to;
    NoLongerMentioned(alphanumeric, Qualifier(from), Qualifier(to), "", text);
  }

  lemma MentionsLater(alphanumeric: char -> bool, needle: string, before: string, text: string)
    requires needle != "" && StartsWith(text, needle) && Mentions(alphanumeric, needle, needle, text[|needle|..])
    ensures Mentions(alphanumeric, needle, before, text)
  {
    var n, tail := |needle|, text[|needle|..];
    var i: nat :| i <= |tail| && MentionsAt(alphanumeric, needle, needle, tail, i);
    assert tail[i..] == text[n + i..] && text[..n + i] == needle + tail[..i];
    assert MentionsAt(alphanumeric, needle, before, text, n + i);
  }

  lemma NotAtStart(alphanumeric: char -> bool, needle: string, before: string, text: string)
    requires !Mentions(alphanumeric, needle, before, text) && StartsWith(text, needle)
    ensures Inside(alphanumeric, before)
  {
    assert text[0..] == text && before + text[..0] == before;
    assert !MentionsAt(alphanumeric, needle, before, text, 0);
  }

  // A text that does not mention the schema is copied.
  lemma {:induction false} Unmentioned(alphanumeric: char -> bool, needle: string, replacement: string, before: string,
                                       text: string)
    requires needle != "" && !Mentions(alphanumeric, needle, before, text)
    ensures Rewritten(alphanumeric, needle, replacement, before, text) == text
    decreases |text|
  {
    hide Mentions;
    if StartsWith(text, needle) {
      NotAtStart(alphanumeric, needle, before, text);
      if Mentions(alphanumeric, needle, needle, text[|needle|..]) {
        MentionsLater(alphanumeric, needle, before, text);
      }
      Unmentioned(alphanumeric, needle, replacement, needle, text[|needle|..]);
    } else if text != "" {
      MentionsNext(alphanumeric, needle, before, text);
      Unmentioned(alphanumeric, needle, replacement, [text[0]], text[1..]);
    }
  }

  // The rewrite changes nothing exactly when the old schema is not mentioned.
  lemma RequalifiedSame(alphanumeric: char -> bool, text: string, from: string, to: string)
    requires Alphabet(alphanumeric) && IsPlain(from) && IsPlain(to) && from != to
    ensures Requalified(alphanumeric, text, from, to) == text <==> !Mentions(alphanumeric, Qualifier(from), "", text)
  {
    RequalifiedAway(alphanumeric, text, from, to);
    if !Mentions(alphanumeric, Qualifier(from), "", text) {
      Unmentioned(alphanumeric, Qualifier(from), Qualifier(to), "", text);
    }
  }

  /* ---- Whole snapshots ---- */

  function OptionRewritten(alphanumeric: char -> bool, text: Option<string>, from: string, to: string): Option<string> {
    if text.None? then None else Some(Requalified(alphanumeric, text.value, from, to))
  }

  function ColumnRewritten(alphanumeric: char -> bool, column: Column, from: string, to: string): Column {
    column.(dataType := Requalified(alphanumeric, column.dataType, from, to),
            default := OptionRewritten(alphanumeric, column.default, from, to),
            generated := OptionRewritten(alphanumeric, column.generated, from, to))
  }

  function TextsRewritten(alphanumeric: char -> bool, texts: map<string, string>, from: string,
                          to: string): map<string, string> {
    map n | n in texts :: Requalified(alphanumeric, texts[n], from, to)
  }

  function ConstraintRewritten(alphanumeric: char -> bool, constraint: Constraint, from: string,
                               to: string): Constraint {
    constraint.(definition := Requalified(alphanumeric, constraint.definition, from, to))
  }

  function ViewRewritten(alphanumeric: char -> bool, view: ViewSnapshot, from: string, to: string): ViewSnapshot {
    view.(definition := Requalified(alphanumeric, view.definition, from, to))
  }

  // A routine keeps its name, and with it its key.
  function RoutineRewritten(alphanumeric: char -> bool, routine: RoutineSnapshot, from: string,
                            to: string): RoutineSnapshot {
    routine.(identityArguments := Requalified(alphanumeric, routine.identityArguments, from, to),
             definition := Requalified(alphanumeric, routine.definition, from, to))
  }

  function TableRewritten(alphanumeric: char -> bool, table: TableSnapshot, from: string, to: string): TableSnapshot {
    TableSnapshot(
      seq(|table.columns|, i requires 0 <= i < |table.columns| =>
        ColumnRewritten(alphanumeric, table.columns[i], from, to)),
      OptionRewritten(alphanumeric, table.partitionKey, from, to),
      map n | n in table.constraints :: ConstraintRewritten(alphanumeric, table.constraints[n], from, to),
      TextsRewritten(alphanumeric, table.indexes, from, to),
      TextsRewritten(alphanumeric, table.triggers, from, to))
  }

  // Sequences hold no references.
  function RequalifySnapshot(alphanumeric: char -> bool, source: SchemaSnapshot, to: string): SchemaSnapshot {
    if source.schema == to then source
    else
      var from := source.schema;
      SchemaSnapshot(
        to,
        map n | n in source.tables :: TableRewritten(alphanumeric, source.tables[n], from, to),
        map n | n in source.views :: ViewRewritten(alphanumeric, source.views[n], from, to),
        map k | k in source.routines :: RoutineRewritten(alphanumeric, source.routines[k], from, to),
        source.sequences)
  }

  // No text of the snapshot mentions the schema.
  ghost predicate Silent(alphanumeric: char -> bool, schema: string, text: string) {
    !Mentions(alphanumeric, Qualifier(schema), "", text)
  }

  ghost predicate OptionSilent(alphanumeric: char -> bool, schema: string, text: Option<string>) {
    text.Some? ==> Silent(alphanumeric, schema, text.value)
  }

  ghost predicate ColumnSilent(alphanumeric: char -> bool, schema: string, column: Column) {
    Silent(alphanumeric, schema, column.dataType) && OptionSilent(alphanumeric, schema, column.default) &&
    OptionSilent(alphanumeric, schema, column.generated)
  }

  ghost predicate TableSilent(alphanumeric: char -> bool, schema: string, table: TableSnapshot) {
    (forall column <- table.columns :: ColumnSilent(alphanumeric, schema, column)) &&
    OptionSilent(alphanumeric, schema, table.partitionKey) &&
    (forall n <- table.constraints :: Silent(alphanumeric, schema, table.constraints[n].definition)) &&
    (forall n <- table.indexes :: Silent(alphanumeric, schema, table.indexes[n])) &&
    (forall n <- table.triggers :: Silent(alphanumeric, schema, table.triggers[n]))
  }

  ghost predicate RoutineSilent(alphanumeric: char -> bool, schema: string, routine: RoutineSnapshot) {
    Silent(alphanumeric, schema, routine.identityArguments) && Silent(alphanumeric, schema, routine.definition)
  }

  ghost predicate SnapshotSilent(alphanumeric: char -> bool, schema: string, s: SchemaSnapshot) {
    (forall n <- s.tables :: TableSilent(alphanumeric, schema, s.tables[n])) &&
    (forall n <- s.views :: Silent(alphanumeric, schema, s.views[n].definition)) &&
    (forall k <- s.routines :: RoutineSilent(alphanumeric, schema, s.routines[k]))
  }

  ghost predicate Plain(alphanumeric: char -> bool, from: string, to: string) {
    Alphabet(alphanumeric) && IsPlain(from) && IsPlain(to)
  }

  lemma OptionBack(alphanumeric: char -> bool, text: Option<string>, from: string, to: string)
    requires Plain(alphanumeric, from, to) && from != to
    ensures OptionRewritten(alphanumeric, OptionRewritten(alphanumeric, text, from, to), to, from) == text <==>
            OptionSilent(alphanumeric, to, text)
  {
    if text.Some? {
      RequalifiedBack(alphanumeric, text.value, from, to);
    }
  }

  lemma ColumnBack(alphanumeric: char -> bool, column: Column, from: string, to: string)
    requires Plain(alphanumeric, from, to) && from != to
    ensures ColumnRewritten(alphanumeric, ColumnRewritten(alphanumeric, column, from, to), to, from) == column <==>
            ColumnSilent(alphanumeric, to, column)
  {
    RequalifiedBack(alphanumeric, column.dataType, from, to);
    OptionBack(alphanumeric, column.default, from, to);
    OptionBack(alphanumeric, column.generated, from, to);
  }

  lemma TextsBack(alphanumeric: char -> bool, texts: map<string, string>, from: string, to: string)
    requires Plain(alphanumeric, from, to) && from != to
    ensures TextsRewritten(alphanumeric, TextsRewritten(alphanumeric, texts, from, to), to, from) == texts <==>
            forall n <- texts :: Silent(alphanumeric, to, texts[n])
  {
    var back := TextsRewritten(alphanumeric, TextsRewritten(alphanumeric, texts, from, to), to, from);
    forall n | n in texts
      ensures back[n] == texts[n] <==> Silent(alphanumeric, to, texts[n])
    {
      RequalifiedBack(alphanumeric, texts[n], from, to);
    }
  }

  lemma TableBack(alphanumeric: char -> bool, table: TableSnapshot, from: string, to: string)
    requires Plain(alphanumeric, from, to) && from != to
    ensures TableRewritten(alphanumeric, TableRewritten(alphanumeric, table, from, to), to, from) == table <==>
            TableSilent(alphanumeric, to, table)
  {
    var there := TableRewritten(alphanumeric, table, from, to);
    var back := TableRewritten(alphanumeric, there, to, from);
    forall i: nat | i < |table.columns|
      ensures back.columns[i] == table.columns[i] <==> ColumnSilent(alphanumeric, to, table.columns[i])
    {
      ColumnBack(alphanumeric, table.columns[i], from, to);
    }
    OptionBack(alphanumeric, table.partitionKey, from, to);
    forall n | n in table.constraints
      ensures back.constraints[n] == table.constraints[n] <==> Silent(alphanumeric, to, table.constraints[n].definition)
    {
      RequalifiedBack(alphanumeric, table.constraints[n].definition, from, to);
    }
    TextsBack(alphanumeric, table.indexes, from, to);
    TextsBack(alphanumeric, table.triggers, from, to);
    if back == table {
      forall column | column in table.columns
        ensures ColumnSilent(alphanumeric, to, column)
      {
        var i: nat :| i < |table.columns| && table.columns[i] == column;
      }
    }
    if TableSilent(alphanumeric, to, table) {
      assert back.columns == table.columns;
      assert back.constraints == table.constraints;
    }
  }

  // A snapshot rewritten for another schema and back is the same snapshot exactly when it mentions that schema nowhere.
  lemma SnapshotBack(alphanumeric: char -> bool, source: SchemaSnapshot, to: string)
    requires Plain(alphanumeric, source.schema, to) && source.schema != to
    ensures RequalifySnapshot(alphanumeric, RequalifySnapshot(alphanumeric, source, to), source.schema) == source <==>
            SnapshotSilent(alphanumeric, to, source)
  {
    hide Requalified, TableRewritten, TableSilent, Mentions, IsPlain, Alphabet;
    var from := source.schema;
    var back := RequalifySnapshot(alphanumeric, RequalifySnapshot(alphanumeric, source, to), from);
    forall n | n in source.tables
      ensures back.tables[n] == source.tables[n] <==> TableSilent(alphanumeric, to, source.tables[n])
    {
      TableBack(alphanumeric, source.tables[n], from, to);
    }
    forall n | n in source.views
      ensures back.views[n] == source.views[n] <==> Silent(alphanumeric, to, source.views[n].definition)
    {
      RequalifiedBack(alphanumeric, source.views[n].definition, from, to);
    }
    forall k | k in source.routines
      ensures back.routines[k] == source.routines[k] <==> RoutineSilent(alphanumeric, to, source.routines[k])
    {
      RequalifiedBack(alphanumeric, source.routines[k].identityArguments, from, to);
      RequalifiedBack(alphanumeric, source.routines[k].definition, from, to);
    }
    if SnapshotSilent(alphanumeric, to, source) {
      assert back.tables == source.tables;
      assert back.views == source.views;
      assert back.routines == source.routines;
    }
  }
}
