/** Comments removed from a schema file, string literals left alone. */
module SchemaComments {
  import opened Options

  const QUOTE := '"'

  // The length of the string literal the text starts with, to its closing quote or to the end of the text.
  function BodyLength(text: string): (n: nat)
    ensures n <= |text|
  {
    if text == "" then 0
    else if text[0] == QUOTE then 1
    else if text[0] == '\\' && |text| > 1 then 2 + BodyLength(text[2..])
    else 1 + BodyLength(text[1..])
  }

  function LiteralLength(text: string): (n: nat)
    requires text != "" && text[0] == QUOTE
    ensures 1 <= n <= |text|
  {
    1 + BodyLength(text[1..])
  }

  // A line comment ends before its line break.
  function LineLength(text: string): (n: nat)
    ensures n <= |text|
  {
    if text == "" || text[0] == '\n' then 0 else 1 + LineLength(text[1..])
  }

  // The text up to `*/` and past it.
  function BlockLength(text: string): (n: nat)
    ensures n <= |text|
  {
    if text == "" then 0
    else if text[0] == '*' && |text| > 1 && text[1] == '/' then 2
    else 1 + BlockLength(text[1..])
  }

  predicate OpensLine(text: string) { |text| > 1 && text[0] == '/' && text[1] == '/' }

  predicate OpensBlock(text: string) { |text| > 1 && text[0] == '/' && text[1] == '*' }

  // What is kept of the first token, and where the next one starts.
  function Step(text: string): (step: (string, nat))
    requires text != ""
    ensures 1 <= step.1 <= |text|
  {
    if text[0] == QUOTE then (text[..LiteralLength(text)], LiteralLength(text))
    else if OpensLine(text) then ("", LineLength(text))
    else if OpensBlock(text) then ("", 2 + BlockLength(text[2..]))
    else ([text[0]], 1)
  }

  function Stripped(text: string): string {
    if text == "" then "" else Step(text).0 + Stripped(text[Step(text).1..])
  }

  /* ---- The loop ---- */

  // The body of a literal, one character on.
  lemma BodyNext(chars: string, i: nat)
    requires i <= |chars|
    ensures i == |chars| ==> BodyLength(chars[i..]) == 0
    ensures i < |chars| && chars[i] == QUOTE ==> BodyLength(chars[i..]) == 1
    ensures i + 1 < |chars| && chars[i] == '\\' ==> BodyLength(chars[i..]) == 2 + BodyLength(chars[i + 2..])
    ensures i + 1 == |chars| && chars[i] == '\\' ==> BodyLength(chars[i..]) == 1
    ensures i < |chars| && chars[i] != QUOTE && chars[i] != '\\' ==>
      BodyLength(chars[i..]) == 1 + BodyLength(chars[i + 1..])
  {
    if i < |chars| {
      assert chars[i..][1..] == chars[i + 1..];
      if i + 1 < |chars| {
        assert chars[i..][2..] == chars[i + 2..];
      }
    }
  }

  method CopyLiteral(chars: string, start: nat) returns (i: nat, copied: string)
    requires start < |chars| && chars[start] == QUOTE
    ensures i == start + LiteralLength(chars[start..]) && copied == chars[start..i]
  {
    hide BodyLength;
    i, copied := start + 1, [QUOTE];
    assert chars[start..][1..] == chars[i..];
    while i < |chars| && chars[i] != QUOTE
      invariant start < i <= |chars| && copied == chars[start..i]
      invariant i + BodyLength(chars[i..]) == start + LiteralLength(chars[start..])
      decreases |chars| - i
    {
      BodyNext(chars, i);
      if chars[i] == '\\' {
        copied := copied + [chars[i]];
        i := i + 1;
        if i >= |chars| {
          break;
        }
      }
      copied := copied + [chars[i]];
      i := i + 1;
    }
    BodyNext(chars, i);
    if i < |chars| {
      copied := copied + [chars[i]];
      i := i + 1;
    }
  }

  method SkipLine(chars: string, start: nat) returns (i: nat)
    requires start <= |chars|
    ensures i == start + LineLength(chars[start..])
  {
    i := start;
    while i < |chars| && chars[i] != '\n'
      invariant start <= i <= |chars| && i + LineLength(chars[i..]) == start + LineLength(chars[start..])
    {
      assert chars[i..][1..] == chars[i + 1..];
      i := i + 1;
    }
  }

  method SkipBlock(chars: string, start: nat) returns (i: nat)
    requires start <= |chars|
    ensures i == start + BlockLength(chars[start..])
  {
    i := start;
    while i < |chars| && !(chars[i] == '*' && i + 1 < |chars| && chars[i + 1] == '/')
      invariant start <= i <= |chars| && i + BlockLength(chars[i..]) == start + BlockLength(chars[start..])
    {
      assert chars[i..][1..] == chars[i + 1..];
      i := i + 1;
    }
    i := if i + 2 < |chars| then i + 2 else |chars|;
  }

  // One literal, comment or character.
  method NextToken(chars: string, start: nat) returns (kept: string, i: nat)
    requires start < |chars|
    ensures start < i <= |chars| && (kept, i - start) == Step(chars[start..])
  {
    hide BodyLength, BlockLength;
    ghost var rest := chars[start..];
    kept, i := "", start;
    if chars[i] == QUOTE {
      i, kept := CopyLiteral(chars, i);
      assert kept == rest[..i - start];
    } else if chars[i] == '/' && i + 1 < |chars| && chars[i + 1] == '/' {
      assert OpensLine(rest);
      i := SkipLine(chars, i);
      assert Step(rest) == ("", i - start);
    } else if chars[i] == '/' && i + 1 < |chars| && chars[i + 1] == '*' {
      assert rest[2..] == chars[i + 2..] && OpensBlock(rest);
      i := SkipBlock(chars, i + 2);
      assert Step(rest) == ("", i - start);
    } else {
      assert !OpensLine(rest) && !OpensBlock(rest);
      kept := [chars[i]];
      i := i + 1;
    }
  }

  method StripComments(chars: string) returns (out: string)
    ensures out == Stripped(chars)
  {
    hide Step;
    out := "";
    var i := 0;
    assert chars[0..] == chars;
    while i < |chars|
      invariant i <= |chars| && out + Stripped(chars[i..]) == Stripped(chars)
      decreases |chars| - i
    {
      ghost var rest, before := chars[i..], i;
      var kept, end := NextToken(chars, i);
      assert rest[end - before..] == chars[end..];
      out, i := out + kept, end;
    }
  }

  /* ---- What it promises ---- */

  // No comment opens outside a string literal.
  ghost predicate Clean(text: string)
    decreases |text|
  {
    text == "" || (!OpensLine(text) && !OpensBlock(text) && Clean(text[Step(text).1..]))
  }

  // The string literals of a text, comments skipped.
  function Literals(text: string): seq<string>
    decreases |text|
  {
    if text == "" then []
    else (if text[0] == QUOTE then [Step(text).0] else []) + Literals(text[Step(text).1..])
  }

  // The body ends at a closing quote.
  predicate Closed(text: string)
    decreases |text|
  {
    text != "" &&
    (text[0] == QUOTE || if text[0] == '\\' && |text| > 1 then Closed(text[2..]) else Closed(text[1..]))
  }

  lemma {:induction false} BodyOfPrefix(text: string)
    ensures BodyLength(text[..BodyLength(text)]) == BodyLength(text)
    decreases |text|
  {
    if text != "" && text[0] != QUOTE {
      var k := if text[0] == '\\' && |text| > 1 then 2 else 1;
      BodyOfPrefix(text[k..]);
      var n := BodyLength(text);
      assert text[..n][k..] == text[k..][..n - k];
    }
  }

  lemma {:induction false} ClosedBody(text: string, tail: string)
    requires Closed(text)
    ensures BodyLength(text[..BodyLength(text)] + tail) == BodyLength(text)
    decreases |text|
  {
    if text[0] != QUOTE {
      var k := if text[0] == '\\' && |text| > 1 then 2 else 1;
      ClosedBody(text[k..], tail);
      var n := BodyLength(text);
      assert (text[..n] + tail)[k..] == text[k..][..n - k] + tail;
      ClosedLong(text[k..]);
    }
  }

  lemma {:induction false} ClosedLong(text: string)
    requires Closed(text)
    ensures BodyLength(text) >= 1
  {
  }

  lemma {:induction false} OpenToEnd(text: string)
    requires !Closed(text)
    ensures BodyLength(text) == |text|
    decreases |text|
  {
    if text != "" {
      OpenToEnd(text[if text[0] == '\\' && |text| > 1 then 2 else 1..]);
    }
  }

  // A literal followed by anything is read as that literal again, unless it runs to the end of the text.
  lemma LiteralAgain(text: string, tail: string)
    requires text != "" && text[0] == QUOTE
    requires LiteralLength(text) == |text| ==> tail == "" || Closed(text[1..])
    ensures var lit := text[..LiteralLength(text)];
      lit + tail != "" && (lit + tail)[0] == QUOTE && Step(lit + tail) == (lit, |lit|)
  {
    var n := LiteralLength(text);
    var lit := text[..n];
    assert lit[1..] == text[1..][..n - 1];
    assert (lit + tail)[1..] == text[1..][..n - 1] + tail;
    if Closed(text[1..]) {
      ClosedBody(text[1..], tail);
    } else {
      OpenToEnd(text[1..]);
      BodyOfPrefix(text[1..]);
      assert text[1..][..n - 1] + "" == text[1..][..n - 1];
    }
    assert (lit + tail)[..n] == lit;
  }

  // What is kept of a text that starts with neither `/` nor `*` starts with the same character.
  lemma FirstKept(text: string)
    requires text != "" && text[0] != '/' && text[0] != '*'
    ensures Stripped(text) != "" && Stripped(text)[0] == text[0]
  {
  }

  // Stripping leaves no comment, keeps every string literal, and doing it again changes nothing.
  lemma {:induction false} StrippedClean(text: string)
    ensures Clean(Stripped(text)) && Literals(Stripped(text)) == Literals(text) &&
      Stripped(Stripped(text)) == Stripped(text)
    decreases |text|
  {
    if text != "" {
      var step := Step(text);
      var rest := text[step.1..];
      var tail := Stripped(rest);
      StrippedClean(rest);
      if text[0] == QUOTE {
        if !Closed(text[1..]) {
          OpenToEnd(text[1..]);
        }
        LiteralAgain(text, tail);
        assert (step.0 + tail)[step.1..] == tail;
      } else if OpensLine(text) || OpensBlock(text) {
        assert "" + tail == tail;
      } else {
        if text[0] == '/' && rest != "" {
          FirstKept(rest);
        }
        assert ([text[0]] + tail)[1..] == tail;
        assert Step([text[0]] + tail) == ([text[0]], 1);
      }
    }
  }

  // Exactly the texts without comments are left as they are.
  lemma {:induction false} StrippedSame(text: string)
    ensures Stripped(text) == text <==> Clean(text)
    decreases |text|
  {
    if Clean(text) && text != "" {
      StrippedSame(text[Step(text).1..]);
      assert text == Step(text).0 + text[Step(text).1..];
    }
    if Stripped(text) == text {
      StrippedClean(text);
    }
  }
}

/** What is removed and what is kept, token by token. */
module SchemaTokens {
  import opened SchemaComments

  // A literal or a block comment that is not closed runs to the end of the text.
  datatype Token =
    | Plain(c: char) | Literal(body: string, closed: bool) | LineComment(text: string)
    | BlockComment(text: string, closed: bool)

  function PrintToken(t: Token): string {
    match t
    case Plain(c) => [c]
    case Literal(body, closed) => ['"'] + body + if closed then ['"'] else ""
    case LineComment(text) => "//" + text
    case BlockComment(text, closed) => "/*" + text + if closed then "*/" else ""
  }

  function PrintTokens(tokens: seq<Token>): string {
    if tokens == [] then "" else PrintToken(tokens[0]) + PrintTokens(tokens[1..])
  }

  // Comments go, everything else stays.
  function KeptTokens(tokens: seq<Token>): string {
    if tokens == [] then ""
    else
      (if tokens[0].LineComment? || tokens[0].BlockComment? then "" else PrintToken(tokens[0])) +
        KeptTokens(tokens[1..])
  }

  // Inside a literal a backslash goes with the next character, and no quote stands alone.
  predicate Inside(body: string) {
    body == "" ||
    (body[0] != '"' && if body[0] == '\\' then |body| > 1 && Inside(body[2..]) else Inside(body[1..]))
  }

  // The text may end after a backslash.
  predicate InsideOpen(body: string) {
    Inside(body) || (body != "" && body[|body| - 1] == '\\' && Inside(body[..|body| - 1]))
  }

  predicate HoldsEnd(text: string) { exists i :: 0 <= i < |text| - 1 && text[i] == '*' && text[i + 1] == '/' }

  predicate TokenOk(t: Token, rest: string) {
    match t
    case Plain(c) => c != '"' && (c == '/' ==> rest == "" || (rest[0] != '/' && rest[0] != '*'))
    case Literal(body, closed) => if closed then Inside(body) else InsideOpen(body) && rest == ""
    case LineComment(text) => '\n' !in text && (rest == "" || rest[0] == '\n')
    case BlockComment(text, closed) => !HoldsEnd(text) && (!closed ==> rest == "")
  }

  predicate TokensOk(tokens: seq<Token>) {
    tokens != [] ==> TokenOk(tokens[0], PrintTokens(tokens[1..])) && TokensOk(tokens[1..])
  }

  /* ---- One token ---- */

  lemma {:induction false} BodyClosed(body: string, rest: string)
    requires Inside(body)
    ensures BodyLength(body + ['"'] + rest) == |body| + 1
    decreases |body|
  {
    var text := body + ['"'] + rest;
    if body == "" {
      assert text[0] == '"';
    } else if body[0] == '\\' {
      assert text[2..] == body[2..] + ['"'] + rest;
      BodyClosed(body[2..], rest);
    } else {
      assert text[1..] == body[1..] + ['"'] + rest;
      BodyClosed(body[1..], rest);
    }
  }

  lemma {:induction false} BodyOpen(body: string)
    requires InsideOpen(body)
    ensures BodyLength(body) == |body|
    decreases |body|
  {
    if body != "" && !(body[0] == '\\' && |body| == 1) {
      var k := if body[0] == '\\' then 2 else 1;
      if !Inside(body) {
        assert body[..|body| - 1][k..] == body[k..][..|body| - 1 - k];
      }
      BodyOpen(body[k..]);
    }
  }

  lemma {:induction false} LineEnds(text: string, rest: string)
    requires '\n' !in text && (rest == "" || rest[0] == '\n')
    ensures LineLength(text + rest) == |text|
  {
    if text == "" {
      assert text + rest == rest;
    } else {
      assert (text + rest)[1..] == text[1..] + rest;
      LineEnds(text[1..], rest);
    }
  }

  lemma {:induction false} BlockEnds(text: string, rest: string)
    requires !HoldsEnd(text)
    ensures BlockLength(text + "*/" + rest) == |text| + 2
  {
    var all := text + "*/" + rest;
    if text != "" {
      assert all[1..] == text[1..] + "*/" + rest;
      TailHoldsNone(text);
      BlockEnds(text[1..], rest);
      assert |text| > 1 ==> all[1] == text[1];
    }
  }

  lemma TailHoldsNone(text: string)
    requires text != "" && !HoldsEnd(text)
    ensures !HoldsEnd(text[1..])
  {
    forall i | 0 <= i < |text[1..]| - 1
      ensures !(text[1..][i] == '*' && text[1..][i + 1] == '/')
    {
      assert !(text[i + 1] == '*' && text[i + 2] == '/');
    }
  }

  lemma {:induction false} BlockRunsOn(text: string)
    requires !HoldsEnd(text)
    ensures BlockLength(text) == |text|
  {
    if text != "" {
      TailHoldsNone(text);
      BlockRunsOn(text[1..]);
    }
  }

  lemma LiteralRead(body: string, closed: bool, rest: string)
    requires TokenOk(Literal(body, closed), rest)
    ensures var text := PrintToken(Literal(body, closed)); Step(text + rest) == (text, |text|)
  {
    var text := PrintToken(Literal(body, closed));
    if closed {
      assert (text + rest)[1..] == body + ['"'] + rest;
      BodyClosed(body, rest);
    } else {
      assert (text + rest)[1..] == body;
      BodyOpen(body);
    }
    assert (text + rest)[..|text|] == text;
  }

  lemma CommentRead(t: Token, rest: string)
    requires (t.LineComment? || t.BlockComment?) && TokenOk(t, rest)
    ensures Step(PrintToken(t) + rest) == ("", |PrintToken(t)|)
  {
    var all := PrintToken(t) + rest;
    match t
    case LineComment(text) =>
      assert all == ("//" + text) + rest;
      LineEnds("//" + text, rest);
    case BlockComment(text, closed) =>
      if closed {
        assert all[2..] == text + "*/" + rest;
        BlockEnds(text, rest);
      } else {
        assert all[2..] == text;
        BlockRunsOn(text);
      }
  }

  lemma TokenRead(t: Token, rest: string)
    requires TokenOk(t, rest)
    ensures var text, comment := PrintToken(t), t.LineComment? || t.BlockComment?;
      text != "" && Step(text + rest) == (if comment then "" else text, |text|)
  {
    hide BodyLength, BlockLength, LineLength;
    match t
    case Plain(c) =>
      assert ([c] + rest)[..1] == [c];
    case Literal(body, closed) => LiteralRead(body, closed, rest);
    case LineComment(_) => CommentRead(t, rest);
    case BlockComment(_, _) => CommentRead(t, rest);
  }

  // Stripping removes the comments of a text and nothing else.
  lemma {:induction false} StrippedTokens(tokens: seq<Token>)
    requires TokensOk(tokens)
    ensures Stripped(PrintTokens(tokens)) == KeptTokens(tokens)
  {
    hide Step, TokenOk, PrintToken;
    if tokens != [] {
      var text, rest := PrintToken(tokens[0]), PrintTokens(tokens[1..]);
      TokenRead(tokens[0], rest);
      assert (text + rest)[|text|..] == rest;
      StrippedTokens(tokens[1..]);
    }
  }

  /* ---- Every text has tokens ---- */

  lemma {:induction false} BodySplits(text: string) returns (body: string, closed: bool)
    ensures if closed then Inside(body) && |text| > |body| && text[|body|] == '"' && text[..|body|] == body
            else InsideOpen(body) && body == text
    decreases |text|
  {
    if text == "" || (text[0] == '\\' && |text| == 1) {
      assert text != "" ==> text[..0] == "";
      body, closed := text, false;
    } else if text[0] == '"' {
      body, closed := "", true;
    } else {
      var k := if text[0] == '\\' then 2 else 1;
      var more, end := BodySplits(text[k..]);
      body, closed := text[..k] + more, end;
      assert body[k..] == more;
      if closed {
        assert text[k..][..|more|] == more && text[..|body|] == text[..k] + text[k..][..|more|];
      } else {
        assert text == text[..k] + text[k..];
        if !Inside(more) {
          assert body[..|body| - 1][k..] == more[..|more| - 1];
        }
      }
    }
  }

  lemma {:induction false} BlockSplits(text: string) returns (inner: string, closed: bool)
    ensures !HoldsEnd(inner)
    ensures if closed then |text| >= |inner| + 2 && text[..|inner|] == inner && text[|inner|..|inner| + 2] == "*/"
            else inner == text
    decreases |text|
  {
    if text == "" {
      inner, closed := "", false;
    } else if |text| > 1 && text[0] == '*' && text[1] == '/' {
      inner, closed := "", true;
    } else {
      var more, end := BlockSplits(text[1..]);
      inner, closed := [text[0]] + more, end;
      if closed {
        assert text[1..][..|more|] == more && text[1..][|more|..|more| + 2] == text[|inner|..|inner| + 2];
      }
      forall i | 0 <= i < |inner| - 1
        ensures !(inner[i] == '*' && inner[i + 1] == '/')
      {
        if i > 0 {
          assert !(more[i - 1] == '*' && more[i] == '/');
        } else {
          assert text[1] == more[0];
        }
      }
    }
  }

  lemma {:induction false} LineSplits(text: string) returns (line: string)
    ensures '\n' !in line && |line| <= |text| && text[..|line|] == line && (|line| < |text| ==> text[|line|] == '\n')
  {
    if text == "" || text[0] == '\n' {
      line := "";
    } else {
      var more := LineSplits(text[1..]);
      line := [text[0]] + more;
    }
  }

  // What a text starts with.
  ghost predicate StartsWithToken(text: string, t: Token) {
    exists rest :: text == PrintToken(t) + rest && TokenOk(t, rest)
  }

  lemma FirstLiteral(text: string) returns (t: Token)
    requires text != "" && text[0] == '"'
    ensures StartsWithToken(text, t)
  {
    var body, closed := BodySplits(text[1..]);
    t := Literal(body, closed);
    var rest := if closed then text[|body| + 2..] else "";
    if closed {
      assert text == ['"'] + text[1..][..|body|] + ['"'] + rest;
    }
    assert text == PrintToken(t) + rest && TokenOk(t, rest);
  }

  lemma FirstComment(text: string) returns (t: Token)
    requires |text| > 1 && text[0] == '/' && (text[1] == '/' || text[1] == '*')
    ensures StartsWithToken(text, t)
  {
    if text[1] == '/' {
      var line := LineSplits(text[2..]);
      t := LineComment(line);
      assert text == PrintToken(t) + text[2..][|line|..] && TokenOk(t, text[2..][|line|..]);
    } else {
      var inner, closed := BlockSplits(text[2..]);
      t := BlockComment(inner, closed);
      var rest := if closed then text[2..][|inner| + 2..] else "";
      assert text == "/*" + text[2..];
      assert closed ==> text[2..] == inner + "*/" + rest;
      assert text == PrintToken(t) + rest && TokenOk(t, rest);
    }
  }

  lemma FirstToken(text: string) returns (t: Token)
    requires text != ""
    ensures StartsWithToken(text, t) && PrintToken(t) != ""
  {
    if text[0] == '"' {
      t := FirstLiteral(text);
    } else if |text| > 1 && text[0] == '/' && (text[1] == '/' || text[1] == '*') {
      t := FirstComment(text);
    } else {
      t := Plain(text[0]);
      assert text == PrintToken(t) + text[1..] && TokenOk(t, text[1..]);
    }
  }

  lemma {:induction false} EveryText(text: string)
    ensures exists tokens :: TokensOk(tokens) && PrintTokens(tokens) == text
    decreases |text|
  {
    hide TokenOk, PrintToken;
    if text == "" {
      assert TokensOk([]) && PrintTokens([]) == text;
    } else {
      var t := FirstToken(text);
      var rest :| text == PrintToken(t) + rest && TokenOk(t, rest);
      EveryText(rest);
      var tokens :| TokensOk(tokens) && PrintTokens(tokens) == rest;
      var all := [t] + tokens;
      assert all[1..] == tokens;
      assert TokensOk(all) && PrintTokens(all) == text;
    }
  }

  // So the result is the text without its comments, whichever text it is.
  lemma StrippedExactly(text: string, out: string)
    ensures out == Stripped(text) <==>
            exists tokens :: TokensOk(tokens) && PrintTokens(tokens) == text && KeptTokens(tokens) == out
  {
    EveryText(text);
    forall tokens | TokensOk(tokens) && PrintTokens(tokens) == text
      ensures Stripped(text) == KeptTokens(tokens)
    {
      StrippedTokens(tokens);
    }
  }
}
