/** Key words PostgreSQL's `quote_ident` always quotes. */
module ReservedWords {
  const RESERVED: seq<string> := [
    "all", "analyse", "analyze", "and", "any", "array", "as", "asc", "asymmetric", "both", "case", "cast", "check",
    "collate", "column", "constraint", "create", "current_catalog", "current_date", "current_role", "current_time",
    "current_timestamp", "current_user", "default", "deferrable", "desc", "distinct", "do", "else", "end", "except",
    "false", "fetch", "for", "foreign", "from", "grant", "group", "having", "in", "initially", "intersect", "into",
    "lateral", "leading", "limit", "localtime", "localtimestamp", "not", "null", "offset", "on", "only", "or",
    "order", "placing", "primary", "references", "returning", "select", "session_user", "some", "symmetric",
    "system_user", "table", "then", "to", "trailing", "true", "union", "unique", "user", "using", "variadic", "when",
    "where", "window", "with"
  ]

  predicate IsReserved(identifier: string) { identifier in RESERVED }
}

/** Identifiers as SQL text: how they are printed, and how the form editor reads them back. */
module Identifiers {
  import opened Options
  import opened Text
  import opened Numbers
  import opened ReservedWords

  /* ---- Printing ---- */

  predicate IsLower(c: char) { 'a' <= c <= 'z' }

  predicate IsPlainChar(c: char) { IsLower(c) || IsDigit(c) || c == '_' || c == '$' }

  predicate AllPlain(s: string) { forall c <- s :: IsPlainChar(c) }

  predicate IsPlain(identifier: string) {
    identifier != "" && (IsLower(identifier[0]) || identifier[0] == '_') && AllPlain(identifier) &&
      !IsReserved(identifier)
  }

  // `replace('"', "\"\"")`
  function Doubled(s: string): string {
    if s == "" then "" else (if s[0] == '"' then ['"', '"'] else [s[0]]) + Doubled(s[1..])
  }

  function Quoted(identifier: string): string { ['"'] + Doubled(identifier) + ['"'] }

  // Plain lower-case identifiers stay bare.
  function QuoteIdent(identifier: string): string {
    if IsPlain(identifier) then identifier else Quoted(identifier)
  }

  /* ---- Reading ---- */

  // What `char::is_alphanumeric` says, as far as the results need it.
  ghost predicate Alphabet(alphanumeric: char -> bool) {
    (forall c: char :: IsLower(c) || IsDigit(c) ==> alphanumeric(c)) &&
    (forall c: char :: alphanumeric(c) ==> c != '"' && c != '.' && c != '_' && c != '$' && !IsWhitespace(c))
  }

  predicate IsNameChar(alphanumeric: char -> bool, c: char) { alphanumeric(c) || c == '_' || c == '$' }

  datatype Read<+T> = Read(result: Option<T>, rest: string)

  // After the opening quote.
  function ReadQuoted(text: string): Read<string> {
    if text == "" then Read(None, "")
    else if text[0] == '"' && (|text| == 1 || text[1] != '"') then Read(Some(""), text[1..])
    else
      var next := ReadQuoted(if text[0] == '"' then text[2..] else text[1..]);
      Read(if next.result.None? then None else Some([text[0]] + next.result.value), next.rest)
  }

  // What was read before comes first.
  ghost function Prefixed(read: string, next: Read<string>): Read<string> {
    Read(if next.result.None? then None else Some(read + next.result.value), next.rest)
  }

  lemma PrefixedNone(next: Read<string>)
    ensures Prefixed("", next) == next
  {
    if next.result.Some? {
      assert "" + next.result.value == next.result.value;
    }
  }

  lemma ReadQuotedEnd(read: string)
    ensures Prefixed(read, ReadQuoted("")) == Read(None, "")
  {
  }

  lemma ReadQuotedStep(read: string, text: string)
    requires text != ""
    ensures text[0] != '"' ==> Prefixed(read, ReadQuoted(text)) == Prefixed(read + [text[0]], ReadQuoted(text[1..]))
    ensures text[0] == '"' && |text| > 1 && text[1] == '"' ==>
            Prefixed(read, ReadQuoted(text)) == Prefixed(read + ['"'], ReadQuoted(text[2..]))
    ensures text[0] == '"' && (|text| == 1 || text[1] != '"') ==>
      Prefixed(read, ReadQuoted(text)) == Read(Some(read), text[1..])
  {
    var skip := if text[0] == '"' && |text| > 1 && text[1] == '"' then 2 else 1;
    var next := ReadQuoted(text[skip..]);
    assert next.result.Some? ==> read + ([text[0]] + next.result.value) == read + [text[0]] + next.result.value;
    assert read + "" == read;
  }

  function NameLength(alphanumeric: char -> bool, text: string): (n: nat)
    ensures n <= |text| && forall c <- text[..n] :: IsNameChar(alphanumeric, c)
    ensures n < |text| ==> !IsNameChar(alphanumeric, text[n])
  {
    if text != "" && IsNameChar(alphanumeric, text[0]) then
      var n := NameLength(alphanumeric, text[1..]);
      assert text[..n + 1] == [text[0]] + text[1..][..n];
      n + 1
    else 0
  }

  function ReadIdentifier(alphanumeric: char -> bool, text: string): Read<string> {
    var rest := TrimStart(text);
    if rest != "" && rest[0] == '"' then ReadQuoted(rest[1..])
    else
      var n := NameLength(alphanumeric, rest);
      if n == 0 then Read(None, rest) else Read(Some(AsciiLower(rest[..n])), rest[n..])
  }

  datatype ObjectName = ObjectName(schema: Option<string>, name: string)

  function ReadQualified(alphanumeric: char -> bool, text: string): Read<ObjectName> {
    var first := ReadIdentifier(alphanumeric, text);
    if first.result.None? then Read(None, first.rest)
    else
      var rest := TrimStart(first.rest);
      if rest != "" && rest[0] == '.' then
        var second := ReadIdentifier(alphanumeric, rest[1..]);
        Read(if second.result.None? then None else Some(ObjectName(Some(first.result.value), second.result.value)),
             second.rest)
      else Read(Some(ObjectName(None, first.result.value)), rest)
  }

  // The cursor: an offset into the definition text.
  class DdlCursor {
    const input: string
    const alphanumeric: char -> bool
    var offset: nat

    ghost predicate Valid() reads this { offset <= |input| }

    function Rest(): string reads this requires Valid() { input[offset..] }

    constructor (input: string, alphanumeric: char -> bool)
      ensures Valid() && Rest() == input && this.input == input && this.alphanumeric == alphanumeric
    {
      this.input, this.alphanumeric, offset := input, alphanumeric, 0;
      new;
      assert input[0..] == input;
    }

    method SkipWhitespace()
      requires Valid()
      modifies this
      ensures Valid() && Rest() == TrimStart(old(Rest()))
    {
      while offset < |input| && IsWhitespace(input[offset])
        invariant offset <= |input| && TrimStart(Rest()) == TrimStart(old(Rest()))
      {
        assert Rest()[1..] == input[offset + 1..];
        offset := offset + 1;
      }
    }

    method QuotedIdentifier() returns (identifier: Option<string>)
      requires Valid()
      modifies this
      ensures Valid() && Read(identifier, Rest()) == ReadQuoted(old(Rest()))
    {
      hide ReadQuoted;
      ghost var whole := ReadQuoted(Rest());
      var read := "";
      PrefixedNone(whole);
      while offset < |input|
        invariant Valid()
        invariant whole == Prefixed(read, ReadQuoted(Rest()))
        decreases |input| - offset
      {
        var c := input[offset];
        ReadQuotedStep(read, Rest());
        assert Rest()[1..] == input[offset + 1..];
        offset := offset + 1;
        if c == '"' {
          if offset < |input| && input[offset] == '"' {
            assert input[offset - 1..][2..] == input[offset + 1..];
            read := read + ['"'];
            offset := offset + 1;
          } else {
            return Some(read);
          }
        } else {
          read := read + [c];
        }
      }
      assert Rest() == "";
      ReadQuotedEnd(read);
      return None;
    }

    method Identifier() returns (identifier: Option<string>)
      requires Valid()
      modifies this
      ensures Valid() && Read(identifier, Rest()) == ReadIdentifier(alphanumeric, old(Rest()))
    {
      SkipWhitespace();
      if offset < |input| && input[offset] == '"' {
        assert Rest()[1..] == input[offset + 1..];
        offset := offset + 1;
        identifier := QuotedIdentifier();
        return;
      }
      var n := 0;
      while n < |input| - offset && IsNameChar(alphanumeric, input[offset + n])
        invariant n <= |input| - offset
        invariant NameLength(alphanumeric, Rest()) == n + NameLength(alphanumeric, input[offset + n..])
      {
        assert input[offset + n..][1..] == input[offset + n + 1..];
        n := n + 1;
      }
      if n == 0 {
        return None;
      }
      identifier := Some(AsciiLower(input[offset..offset + n]));
      assert Rest()[..n] == input[offset..offset + n] && Rest()[n..] == input[offset + n..];
      offset := offset + n;
    }

    method QualifiedName() returns (name: Option<ObjectName>)
      requires Valid()
      modifies this
      ensures Valid() && Read(name, Rest()) == ReadQualified(alphanumeric, old(Rest()))
    {
      var first := Identifier();
      if first.None? {
        return None;
      }
      SkipWhitespace();
      if offset < |input| && input[offset] == '.' {
        assert Rest()[1..] == input[offset + 1..];
        offset := offset + 1;
        var second := Identifier();
        if second.None? {
          return None;
        }
        return Some(ObjectName(Some(first.value), second.value));
      }
      return Some(ObjectName(None, first.value));
    }
  }

  /* ---- Reading undoes printing ---- */

  // Both printers of the code base.
  ghost predicate Prints(printed: string, identifier: string) {
    printed == QuoteIdent(identifier) || printed == Quoted(identifier)
  }

  predicate StartsName(alphanumeric: char -> bool, text: string) {
    text != "" && (text[0] == '"' || IsNameChar(alphanumeric, text[0]))
  }

  lemma {:induction false} ReadDoubled(identifier: string, tail: string)
    requires tail == "" || tail[0] != '"'
    ensures ReadQuoted(Doubled(identifier) + ['"'] + tail) == Read(Some(identifier), tail)
  {
    var text := Doubled(identifier) + ['"'] + tail;
    if identifier == "" {
      assert text == ['"'] + tail;
    } else {
      var c := identifier[0];
      var step := if c == '"' then ['"', '"'] else [c];
      ReadDoubled(identifier[1..], tail);
      assert text == step + (Doubled(identifier[1..]) + ['"'] + tail);
      assert identifier == [c] + identifier[1..];
    }
  }

  lemma {:induction false} NameLengthOf(alphanumeric: char -> bool, name: string, tail: string)
    requires forall c <- name :: IsNameChar(alphanumeric, c)
    requires tail == "" || !IsNameChar(alphanumeric, tail[0])
    ensures NameLength(alphanumeric, name + tail) == |name|
  {
    if name != "" {
      assert (name + tail)[1..] == name[1..] + tail;
      NameLengthOf(alphanumeric, name[1..], tail);
    } else {
      assert name + tail == tail;
    }
  }

  lemma LowerAlready(identifier: string)
    requires AllPlain(identifier)
    ensures AsciiLower(identifier) == identifier
  {
    forall i | 0 <= i < |identifier|
      ensures AsciiLower(identifier)[i] == identifier[i]
    {
      assert identifier[i] in identifier;
    }
  }

  lemma ReadPrintedQuoted(alphanumeric: char -> bool, identifier: string, tail: string)
    requires tail == "" || tail[0] != '"'
    ensures ReadIdentifier(alphanumeric, Quoted(identifier) + tail) == Read(Some(identifier), tail)
  {
    hide ReadQuoted, Doubled, NameLength;
    var text := Quoted(identifier) + tail;
    ReadDoubled(identifier, tail);
    assert text[1..] == Doubled(identifier) + ['"'] + tail;
    assert TrimStart(text) == text;
  }

  lemma ReadPrintedPlain(alphanumeric: char -> bool, identifier: string, tail: string)
    requires Alphabet(alphanumeric) && IsPlain(identifier) && !StartsName(alphanumeric, tail)
    ensures ReadIdentifier(alphanumeric, identifier + tail) == Read(Some(identifier), tail)
  {
    hide ReadQuoted, AsciiLower, NameLength, IsReserved;
    var text := identifier + tail;
    assert alphanumeric(identifier[0]) || identifier[0] == '_';
    assert text[0] == identifier[0];
    assert TrimStart(text) == text;
    NameLengthOf(alphanumeric, identifier, tail);
    assert text[..|identifier|] == identifier && text[|identifier|..] == tail;
    LowerAlready(identifier);
  }

  lemma ReadPrinted(alphanumeric: char -> bool, printed: string, identifier: string, tail: string)
    requires Alphabet(alphanumeric) && Prints(printed, identifier) && !StartsName(alphanumeric, tail)
    ensures ReadIdentifier(alphanumeric, printed + tail) == Read(Some(identifier), tail)
  {
    hide ReadIdentifier, Alphabet, IsPlain, Quoted;
    if printed == Quoted(identifier) {
      ReadPrintedQuoted(alphanumeric, identifier, tail);
    } else {
      ReadPrintedPlain(alphanumeric, identifier, tail);
    }
  }

  // A printed qualified name is read back exactly, whichever printers wrote it and whatever follows it.
  lemma ReadPrintedQualified(alphanumeric: char -> bool, first: string, schema: string, second: string, name: string,
                             tail: string)
    requires Alphabet(alphanumeric) && Prints(first, schema) && Prints(second, name) && !StartsName(alphanumeric, tail)
    ensures ReadQualified(alphanumeric, first + ['.'] + second + tail) ==
      Read(Some(ObjectName(Some(schema), name)), tail)
  {
    hide ReadIdentifier, Prints, QuoteIdent, Quoted;
    var dotted := ['.'] + second + tail;
    assert first + ['.'] + second + tail == first + dotted;
    ReadPrinted(alphanumeric, first, schema, dotted);
    assert TrimStart(dotted) == dotted && dotted[1..] == second + tail;
    ReadPrinted(alphanumeric, second, name, tail);
  }

  // An unqualified name is read back up to the text after it, unless that text goes on with a dot.
  lemma ReadPrintedName(alphanumeric: char -> bool, printed: string, name: string, tail: string)
    requires Alphabet(alphanumeric) && Prints(printed, name) && !StartsName(alphanumeric, tail)
    requires TrimStart(tail) == "" || TrimStart(tail)[0] != '.'
    ensures ReadQualified(alphanumeric, printed + tail) == Read(Some(ObjectName(None, name)), TrimStart(tail))
  {
    ReadPrinted(alphanumeric, printed, name, tail);
  }

  // So no two qualified names are printed alike.
  lemma PrintedApart(schema: string, name: string, otherSchema: string, otherName: string)
    requires QuoteIdent(schema) + ['.'] + QuoteIdent(name) == QuoteIdent(otherSchema) + ['.'] + QuoteIdent(otherName)
    ensures schema == otherSchema && name == otherName
  {
    hide ReadQualified, QuoteIdent;
    var alphanumeric := (c: char) => IsLower(c) || IsDigit(c);
    ReadPrintedQualified(alphanumeric, QuoteIdent(schema), schema, QuoteIdent(name), name, "");
    ReadPrintedQualified(alphanumeric, QuoteIdent(otherSchema), otherSchema, QuoteIdent(otherName), otherName, "");
    assert QuoteIdent(schema) + ['.'] + QuoteIdent(name) + "" ==
      QuoteIdent(otherSchema) + ['.'] + QuoteIdent(otherName) + "";
  }
}

/** What the cursor reads, on any text. */
module IdentifierReading {
  import opened Options
  import opened Text
  import opened TextCorrect
  import opened ReservedWords
  import opened Identifiers

  // Text with whitespace before it.
  predicate Indented(text: string, spaces: string, rest: string) {
    text == spaces + rest && Spaces(spaces) && StartsTight(rest)
  }

  predicate NameChar(alphanumeric: char -> bool, c: char) { c == '_' || c == '$' || alphanumeric(c) }

  // A quoted identifier with its quotes doubled, and what follows the closing quote.
  predicate QuotedThen(rest: string, identifier: string, tail: string) {
    rest == ['"'] + Doubled(identifier) + ['"'] + tail && (tail == "" || tail[0] != '"')
  }

  // A name as long as it goes, and what follows it.
  predicate NameThen(alphanumeric: char -> bool, rest: string, name: string, tail: string) {
    rest == name + tail && name != "" && (forall i :: 0 <= i < |name| ==> NameChar(alphanumeric, name[i])) &&
    (tail == "" || !NameChar(alphanumeric, tail[0]))
  }

  // A closed quoted identifier stands for itself, a bare name for its small letters; anything else is none.
  ghost predicate Reads(alphanumeric: char -> bool, rest: string, r: Read<string>) {
    if rest != "" && rest[0] == '"' then
      (exists identifier, tail :: QuotedThen(rest, identifier, tail) && r == Read(Some(identifier), tail)) ||
      (exists identifier :: rest == ['"'] + Doubled(identifier) && r == Read(None, ""))
    else if rest != "" && NameChar(alphanumeric, rest[0]) then
      exists name, tail, value :: NameThen(alphanumeric, rest, name, tail) && LowersTo(name, value) &&
        r == Read(Some(value), tail)
    else r == Read(None, rest)
  }

  ghost predicate ReadsIndented(alphanumeric: char -> bool, text: string, r: Read<string>) {
    exists spaces, rest :: Indented(text, spaces, rest) && Reads(alphanumeric, rest, r)
  }

  // An identifier, and if a dot follows it, perhaps after whitespace, another one.
  ghost predicate ReadsQualified(alphanumeric: char -> bool, text: string, r: Read<ObjectName>) {
    exists first :: ReadsIndented(alphanumeric, text, first) &&
      if first.result.None? then r == Read(None, first.rest)
      else
        exists spaces, rest :: Indented(first.rest, spaces, rest) &&
          if rest != "" && rest[0] == '.' then
            exists second :: ReadsIndented(alphanumeric, rest[1..], second) &&
              r == Read(if second.result.None? then None
                        else Some(ObjectName(Some(first.result.value), second.result.value)), second.rest)
          else r == Read(Some(ObjectName(None, first.result.value)), rest)
  }

  lemma {:induction false} QuotedExactly(text: string) returns (identifier: string)
    ensures var r := ReadQuoted(text);
      (r.result.Some? ==>
         r.result == Some(identifier) && text == Doubled(identifier) + ['"'] + r.rest &&
         (r.rest == "" || r.rest[0] != '"')) &&
      (r.result.None? ==> text == Doubled(identifier) && r.rest == "")
    decreases |text|
  {
    identifier := "";
    if text != "" && !(text[0] == '"' && (|text| == 1 || text[1] != '"')) {
      var skip := if text[0] == '"' then 2 else 1;
      var more := QuotedExactly(text[skip..]);
      identifier := [text[0]] + more;
      assert identifier[1..] == more;
      assert text == text[..skip] + text[skip..];
      assert text[..skip] == if text[0] == '"' then ['"', '"'] else [text[0]];
    } else if text != "" {
      assert text == ['"'] + text[1..];
    }
  }

  lemma QuotedReads(alphanumeric: char -> bool, rest: string)
    requires rest != "" && rest[0] == '"'
    ensures Reads(alphanumeric, rest, ReadQuoted(rest[1..]))
  {
    hide ReadQuoted, Doubled;
    var identifier := QuotedExactly(rest[1..]);
    assert rest == ['"'] + rest[1..];
    var r := ReadQuoted(rest[1..]);
    if r.result.Some? {
      assert rest == ['"'] + Doubled(identifier) + ['"'] + r.rest;
      assert QuotedThen(rest, identifier, r.rest);
    } else {
      assert r == Read(None, "") && rest == ['"'] + Doubled(identifier);
    }
  }

  lemma NameReads(alphanumeric: char -> bool, rest: string, n: nat)
    requires rest != "" && rest[0] != '"' && n == NameLength(alphanumeric, rest)
    ensures n == 0 ==> Reads(alphanumeric, rest, Read(None, rest))
    ensures n > 0 ==> Reads(alphanumeric, rest, Read(Some(AsciiLower(rest[..n])), rest[n..]))
  {
    hide AsciiLower, LowersTo, NameLength, Doubled;
    NameGoes(alphanumeric, rest, n);
    LowerExactly(rest[..n]);
    if n > 0 {
      assert NameThen(alphanumeric, rest, rest[..n], rest[n..]);
    }
  }

  lemma NameGoes(alphanumeric: char -> bool, rest: string, n: nat)
    requires rest != "" && n == NameLength(alphanumeric, rest)
    ensures n == 0 ==> !NameChar(alphanumeric, rest[0])
    ensures n > 0 ==> NameThen(alphanumeric, rest, rest[..n], rest[n..]) && NameChar(alphanumeric, rest[0])
  {
    assert rest == rest[..n] + rest[n..];
    assert forall i :: 0 <= i < n ==> rest[..n][i] in rest[..n];
  }

  lemma IdentifierExactly(alphanumeric: char -> bool, text: string)
    ensures ReadsIndented(alphanumeric, text, ReadIdentifier(alphanumeric, text))
  {
    hide ReadQuoted, AsciiLower, Reads, NameLength;
    var spaces := TrimStartExactly(text);
    var rest := TrimStart(text);
    assert Indented(text, spaces, rest);
    if rest == "" {
      NothingReads(alphanumeric);
    } else if rest[0] == '"' {
      QuotedReads(alphanumeric, rest);
    } else {
      NameReads(alphanumeric, rest, NameLength(alphanumeric, rest));
    }
  }

  lemma NothingReads(alphanumeric: char -> bool)
    ensures Reads(alphanumeric, "", Read(None, "")) && NameLength(alphanumeric, "") == 0
  {
  }

  lemma QualifiedExactly(alphanumeric: char -> bool, text: string)
    ensures ReadsQualified(alphanumeric, text, ReadQualified(alphanumeric, text))
  {
    hide ReadIdentifier, ReadsIndented;
    var first := ReadIdentifier(alphanumeric, text);
    IdentifierExactly(alphanumeric, text);
    if first.result.Some? {
      var spaces := TrimStartExactly(first.rest);
      var rest := TrimStart(first.rest);
      assert Indented(first.rest, spaces, rest);
      if rest != "" && rest[0] == '.' {
        IdentifierExactly(alphanumeric, rest[1..]);
      }
    }
  }

  // An identifier is printed bare exactly if it is a small name that starts with a letter or an underscore and is no
  // key word.
  lemma BareExactly(identifier: string)
    ensures QuoteIdent(identifier) == identifier <==>
            identifier != "" && (identifier[0] == '_' || 97 <= identifier[0] as int <= 122) &&
            (forall i :: 0 <= i < |identifier| ==>
               identifier[i] == '_' || identifier[i] == '$' || 97 <= identifier[i] as int <= 122 ||
               48 <= identifier[i] as int <= 57) &&
            identifier !in RESERVED
  {
    hide IsReserved;
    assert IsReserved(identifier) <==> identifier in RESERVED by {
      ReservedMeans(identifier);
    }
    if IsPlain(identifier) {
      assert forall i :: 0 <= i < |identifier| ==> identifier[i] in identifier;
    } else {
      QuotedLonger(identifier);
    }
  }

  lemma ReservedMeans(identifier: string)
    ensures IsReserved(identifier) <==> identifier in RESERVED
  {
  }

  lemma QuotedLonger(identifier: string)
    ensures |Quoted(identifier)| > |identifier|
  {
    DoubledLonger(identifier);
  }

  lemma {:induction false} DoubledLonger(s: string)
    ensures |Doubled(s)| >= |s|
  {
    if s != "" {
      DoubledLonger(s[1..]);
    }
  }
}
