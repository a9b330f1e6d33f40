/** The password file: `hostname:port:database:username:password`. */
module Pgpass {
  import opened Options
  import opened Gathering
  import opened Text
  import opened Numbers
  import opened Splitting
  import opened ConnectionUrl

  datatype PgpassEntry = PgpassEntry(host: string, port: string, database: string, user: string, password: string)

  /* ---- Lines ---- */

  // `strip_suffix` of one carriage return.
  function WithoutReturn(line: string): string {
    if line != "" && line[|line| - 1] == '\r' then line[..|line| - 1] else line
  }

  // `str::lines`: a line ends at LF or CRLF; the last one may end with the text.
  function Lines(text: string): seq<string>
    decreases |text|
  {
    if text == "" then []
    else
      var split := SplitFirst(text, '\n');
      if split.None? then [text]
      else
        SplitShorter(text, '\n');
        [WithoutReturn(split.value.0)] + Lines(split.value.1)
  }

  // Blank lines and comments are skipped.
  predicate Skipped(line: string) {
    Trim(line) == "" || (TrimStart(line) != "" && TrimStart(line)[0] == '#')
  }

  /* ---- Fields ---- */

  // The fields of the rest of a line. `\` escapes the next character; the fifth field takes every later colon.
  function FieldsFrom(fields: seq<string>, current: string, text: string): seq<string>
    decreases |text|
  {
    if text == "" then fields + [current]
    else if text[0] == '\\' then
      if |text| == 1 then FieldsFrom(fields, current, "") else FieldsFrom(fields, current + [text[1]], text[2..])
    else if text[0] == ':' && |fields| < 4 then FieldsFrom(fields + [current], "", text[1..])
    else FieldsFrom(fields, current + [text[0]], text[1..])
  }

  function EntryOf(line: string): Option<PgpassEntry> {
    var fields := FieldsFrom([], "", TrimEndChar(line, '\r'));
    if |fields| == 5 then Some(PgpassEntry(fields[0], fields[1], fields[2], fields[3], fields[4])) else None
  }

  function EntryPart(): string -> seq<PgpassEntry> {
    (line: string) => if Skipped(line) || EntryOf(line).None? then [] else [EntryOf(line).value]
  }

  function ParsedPgpass(content: string): seq<PgpassEntry> { Gather(Lines(content), EntryPart()) }

  method ReadLine(line: string) returns (entry: Option<PgpassEntry>)
    ensures entry == EntryOf(line)
  {
    var chars := TrimEndChar(line, '\r');
    var fields: seq<string>, current, i := [], "", 0;
    assert chars[0..] == chars;
    while i < |chars|
      invariant i <= |chars| && FieldsFrom([], "", chars) == FieldsFrom(fields, current, chars[i..])
    {
      var c := chars[i];
      ghost var rest := chars[i..];
      assert rest[1..] == chars[i + 1..];
      i := i + 1;
      if c == '\\' {
        if i < |chars| {
          assert rest[2..] == chars[i + 1..];
          current := current + [chars[i]];
          i := i + 1;
        }
      } else if c == ':' && |fields| < 4 {
        fields, current := fields + [current], "";
      } else {
        current := current + [c];
      }
    }
    fields := fields + [current];
    if |fields| != 5 {
      return None;
    }
    return Some(PgpassEntry(fields[0], fields[1], fields[2], fields[3], fields[4]));
  }

  method ParsePgpass(content: string) returns (entries: seq<PgpassEntry>)
    ensures entries == ParsedPgpass(content)
  {
    hide EntryOf, Skipped;
    var lines := Lines(content);
    entries := [];
    for i := 0 to |lines|
      invariant entries == Gather(lines[..i], EntryPart())
    {
      GatherStep(lines, i, EntryPart());
      if !Skipped(lines[i]) {
        var entry := ReadLine(lines[i]);
        if entry.Some? {
          entries := entries + [entry.value];
        }
      }
    }
    assert lines[..|lines|] == lines;
  }

  /* ---- Looking a password up ---- */

  predicate FieldMatches(pattern: string, value: string) { pattern == "*" || pattern == value }

  datatype Target = Target(host: string, port: nat, database: string, user: string)

  predicate EntryMatches(e: PgpassEntry, t: Target) {
    FieldMatches(e.host, t.host) && FieldMatches(e.port, Decimal(t.port)) && FieldMatches(e.database, t.database) &&
    FieldMatches(e.user, t.user)
  }

  // The first match, as libpq looks it up.
  function PgpassPassword(entries: seq<PgpassEntry>, t: Target): Option<string> {
    if entries == [] then None
    else if EntryMatches(entries[0], t) then Some(entries[0].password)
    else PgpassPassword(entries[1..], t)
  }

  /* ---- Connections ---- */

  // The connection a line names, if it names one.
  function TargetOf(e: PgpassEntry): Option<Target> {
    if e.host == "*" || e.user == "*" || e.host == "" || e.host[0] == '/' then None
    else if e.port != "*" && ParsePort(e.port).None? then None
    else
      Some(Target(e.host, if e.port == "*" then DEFAULT_PORT else ParsePort(e.port).value,
                  if e.database == "*" then "postgres" else e.database, e.user))
  }

  function ConnectionOf(e: PgpassEntry, t: Target): ImportedConnection {
    ImportedConnection(DefaultLabel(t.database, t.host), t.host, t.port, t.database, t.user, false, false,
                       if e.password == "" then None else Some(e.password), [])
  }

  function ConnectionTarget(c: ImportedConnection): Target { Target(c.host, c.port, c.database, c.user) }

  // `lines[k]` is the line each connection comes from: the earliest of its target.
  ghost predicate FromEarliest(entries: seq<PgpassEntry>, connections: seq<ImportedConnection>, lines: seq<nat>) {
    |lines| == |connections| &&
    (forall k :: 0 <= k < |lines| ==> ComesFrom(entries, connections[k], lines[k])) &&
    (forall j, k :: 0 <= j < k < |lines| ==> lines[j] < lines[k])
  }

  ghost predicate ComesFrom(entries: seq<PgpassEntry>, connection: ImportedConnection, line: nat) {
    line < |entries| && TargetOf(entries[line]).Some? &&
    connection == ConnectionOf(entries[line], TargetOf(entries[line]).value) &&
    forall i :: 0 <= i < line ==> TargetOf(entries[i]) != TargetOf(entries[line])
  }

  // Every line that names a connection has it in the list.
  ghost predicate Covers(entries: seq<PgpassEntry>, connections: seq<ImportedConnection>) {
    forall i :: 0 <= i < |entries| && TargetOf(entries[i]).Some? ==>
      exists k :: 0 <= k < |connections| && ConnectionTarget(connections[k]) == TargetOf(entries[i]).value
  }

  ghost predicate DistinctTargets(connections: seq<ImportedConnection>) {
    forall j, k :: 0 <= j < k < |connections| ==> ConnectionTarget(connections[j]) != ConnectionTarget(connections[k])
  }

  lemma EarliestDistinct(entries: seq<PgpassEntry>, connections: seq<ImportedConnection>, lines: seq<nat>)
    requires FromEarliest(entries, connections, lines)
    ensures DistinctTargets(connections)
  {
    forall j, k | 0 <= j < k < |connections|
      ensures ConnectionTarget(connections[j]) != ConnectionTarget(connections[k])
    {
      assert ComesFrom(entries, connections[j], lines[j]) && ComesFrom(entries, connections[k], lines[k]);
      assert TargetOf(entries[lines[j]]) != TargetOf(entries[lines[k]]);
    }
  }

  function Targets(connections: seq<ImportedConnection>): set<Target> {
    set k | 0 <= k < |connections| :: ConnectionTarget(connections[k])
  }

  ghost predicate CoveredUpTo(entries: seq<PgpassEntry>, i: nat, seen: set<Target>) {
    forall j :: 0 <= j < i && j < |entries| && TargetOf(entries[j]).Some? ==> TargetOf(entries[j]).value in seen
  }

  ghost predicate AllBelow(lines: seq<nat>, i: nat) { forall k :: 0 <= k < |lines| ==> lines[k] < i }

  lemma OneMoreConnection(entries: seq<PgpassEntry>, connections: seq<ImportedConnection>, lines: seq<nat>, i: nat,
                          t: Target)
    requires i < |entries| && TargetOf(entries[i]) == Some(t) && FromEarliest(entries, connections, lines) &&
      AllBelow(lines, i)
    requires CoveredUpTo(entries, i, Targets(connections)) && t !in Targets(connections)
    ensures FromEarliest(entries, connections + [ConnectionOf(entries[i], t)], lines + [i]) &&
      AllBelow(lines + [i], i + 1)
    ensures Targets(connections + [ConnectionOf(entries[i], t)]) == Targets(connections) + {t}
  {
    var more := connections + [ConnectionOf(entries[i], t)];
    assert ComesFrom(entries, more[|connections|], i);
    assert ConnectionTarget(more[|connections|]) == t;
    assert forall k :: 0 <= k < |connections| ==> more[k] == connections[k];
  }

  lemma CoveredNext(entries: seq<PgpassEntry>, i: nat, seen: set<Target>, more: set<Target>)
    requires i < |entries| && CoveredUpTo(entries, i, seen) && seen <= more
    requires TargetOf(entries[i]).Some? ==> TargetOf(entries[i]).value in more
    ensures CoveredUpTo(entries, i + 1, more)
  {
  }

  lemma CoversAll(entries: seq<PgpassEntry>, connections: seq<ImportedConnection>)
    requires CoveredUpTo(entries, |entries|, Targets(connections))
    ensures Covers(entries, connections)
  {
  }

  lemma NoConnections(entries: seq<PgpassEntry>)
    ensures FromEarliest(entries, [], []) && CoveredUpTo(entries, 0, {}) && Targets([]) == {} && AllBelow([], 0)
  {
  }

  lemma BelowNext(lines: seq<nat>, i: nat)
    requires AllBelow(lines, i)
    ensures AllBelow(lines, i + 1)
  {
  }

  method PgpassConnections(entries: seq<PgpassEntry>) returns (connections: seq<ImportedConnection>,
                           ghost lines: seq<nat>)
    ensures FromEarliest(entries, connections, lines) && Covers(entries, connections) && DistinctTargets(connections)
  {
    hide FromEarliest, CoveredUpTo, Targets, AllBelow, Covers, DistinctTargets;
    var seen: set<Target> := {};
    connections, lines := [], [];
    NoConnections(entries);
    for i := 0 to |entries|
      invariant FromEarliest(entries, connections, lines) && AllBelow(lines, i)
      invariant seen == Targets(connections) && CoveredUpTo(entries, i, seen)
    {
      var e := entries[i];
      BelowNext(lines, i);
      if e.host == "*" || e.user == "*" || e.host == "" {
        CoveredNext(entries, i, seen, seen);
        continue;
      }
      if e.host[0] == '/' {
        CoveredNext(entries, i, seen, seen);
        continue;
      }
      var port := if e.port == "*" then Some(DEFAULT_PORT) else ParsePort(e.port);
      if port.None? {
        CoveredNext(entries, i, seen, seen);
        continue;
      }
      var t := Target(e.host, port.value, if e.database == "*" then "postgres" else e.database, e.user);
      CoveredNext(entries, i, seen, seen + {t});
      if t in seen {
        assert seen + {t} == seen;
        continue;
      }
      OneMoreConnection(entries, connections, lines, i, t);
      connections := connections + [ConnectionOf(e, t)];
      lines := lines + [i];
      seen := seen + {t};
    }
    CoversAll(entries, connections);
    EarliestDistinct(entries, connections, lines);
  }

  /* ---- Lookup and list agree ---- */

  predicate Wildcard(e: PgpassEntry) { e.host == "*" || e.port == "*" || e.database == "*" || e.user == "*" }

  // The port is written the way it is printed.
  predicate CanonicalPort(e: PgpassEntry) { ParsePort(e.port).Some? ==> e.port == Decimal(ParsePort(e.port).value) }

  lemma {:induction false} FirstMatch(entries: seq<PgpassEntry>, t: Target, line: nat)
    requires line < |entries| && EntryMatches(entries[line], t)
    requires forall i :: 0 <= i < line ==> !EntryMatches(entries[i], t)
    ensures PgpassPassword(entries, t) == Some(entries[line].password)
  {
    if line > 0 {
      FirstMatch(entries[1..], t, line - 1);
    }
  }

  lemma PortOfDecimal(port: string, n: nat)
    requires 1 <= n <= 65535 && port == Decimal(n)
    ensures ParsePort(port) == Some(n)
  {
    DecimalValue(n);
    assert IsDigit(port[0]);
  }

  // Without wildcards and with canonical ports a line matches exactly the target it names.
  lemma MatchesOwn(e: PgpassEntry, other: PgpassEntry)
    requires TargetOf(other).Some? && !Wildcard(e) && CanonicalPort(e) && !Wildcard(other) && CanonicalPort(other)
    ensures EntryMatches(e, TargetOf(other).value) <==> TargetOf(e) == TargetOf(other)
  {
    if e.port == Decimal(TargetOf(other).value.port) {
      PortOfDecimal(e.port, TargetOf(other).value.port);
    }
  }

  // Then the password each connection gets is the one libpq would look up for it.
  lemma LookupAgrees(entries: seq<PgpassEntry>, connections: seq<ImportedConnection>, lines: seq<nat>, k: nat)
    requires FromEarliest(entries, connections, lines) && k < |connections|
    requires forall i :: 0 <= i < |entries| ==> !Wildcard(entries[i]) && CanonicalPort(entries[i])
    ensures PgpassPassword(entries, ConnectionTarget(connections[k])).Some?
    ensures var found := PgpassPassword(entries, ConnectionTarget(connections[k])).value;
      connections[k].password == if found == "" then None else Some(found)
  {
    var line := lines[k];
    assert ComesFrom(entries, connections[k], line);
    var t := ConnectionTarget(connections[k]);
    MatchesOwn(entries[line], entries[line]);
    forall i | 0 <= i < line
      ensures !EntryMatches(entries[i], t)
    {
      MatchesOwn(entries[i], entries[line]);
    }
    FirstMatch(entries, t, line);
  }
}

/** Printing a password file and reading it back. */
module PgpassRoundTrip {
  import opened Options
  import opened Gathering
  import opened Text
  import opened Splitting
  import opened ConnectionUrl
  import opened Pgpass

  // `:` and `\` are escaped.
  function Escaped(field: string): string {
    if field == "" then ""
    else (if field[0] == ':' || field[0] == '\\' then ['\\', field[0]] else [field[0]]) + Escaped(field[1..])
  }

  function PrintEntry(e: PgpassEntry): string {
    Escaped(e.host) + [':'] +
      (Escaped(e.port) + [':'] + (Escaped(e.database) + [':'] + (Escaped(e.user) + [':'] + Escaped(e.password))))
  }

  // Lines may end either way.
  function PrintPgpass(entries: seq<PgpassEntry>, crlf: seq<bool>): string
    requires |crlf| == |entries|
  {
    if entries == [] then ""
    else PrintEntry(entries[0]) + (if crlf[0] then ['\r'] else []) + ['\n'] + PrintPgpass(entries[1..], crlf[1..])
  }

  predicate OneLine(e: PgpassEntry) {
    '\n' !in e.host && '\n' !in e.port && '\n' !in e.database && '\n' !in e.user && '\n' !in e.password
  }

  // The line would be taken for a comment.
  predicate Commented(e: PgpassEntry) { TrimStart(e.host) != "" && TrimStart(e.host)[0] == '#' }

  // Carriage returns at the end of a line belong to its ending.
  function Readable(e: PgpassEntry): PgpassEntry { e.(password := TrimEndChar(e.password, '\r')) }

  function ReadablePart(): PgpassEntry -> seq<PgpassEntry> {
    (e: PgpassEntry) => if Commented(e) then [] else [Readable(e)]
  }

  /* ---- Fields ---- */

  lemma CharacterBack(fields: seq<string>, current: string, c: char, rest: string)
    ensures FieldsFrom(fields, current, (if c == ':' || c == '\\' then ['\\', c] else [c]) + rest) ==
            FieldsFrom(fields, current + [c], rest)
  {
    var step := if c == ':' || c == '\\' then ['\\', c] else [c];
    assert (step + rest)[|step|..] == rest;
  }

  lemma {:induction false} FieldBack(fields: seq<string>, current: string, field: string, rest: string)
    ensures FieldsFrom(fields, current, Escaped(field) + rest) == FieldsFrom(fields, current + field, rest)
    decreases |field|
  {
    hide FieldsFrom;
    if field == "" {
      assert Escaped(field) + rest == rest && current + field == current;
    } else {
      var step := if field[0] == ':' || field[0] == '\\' then ['\\', field[0]] else [field[0]];
      assert Escaped(field) + rest == step + (Escaped(field[1..]) + rest);
      CharacterBack(fields, current, field[0], Escaped(field[1..]) + rest);
      FieldBack(fields, current + [field[0]], field[1..], rest);
      assert current + [field[0]] + field[1..] == current + field;
    }
  }

  lemma SeparatorBack(fields: seq<string>, current: string, rest: string)
    requires |fields| < 4
    ensures FieldsFrom(fields, current, [':'] + rest) == FieldsFrom(fields + [current], "", rest)
  {
    assert ([':'] + rest)[1..] == rest;
  }

  // One field and its separator.
  lemma FieldAndSeparator(fields: seq<string>, field: string, rest: string)
    requires |fields| < 4
    ensures FieldsFrom(fields, "", Escaped(field) + [':'] + rest) == FieldsFrom(fields + [field], "", rest)
  {
    assert Escaped(field) + [':'] + rest == Escaped(field) + ([':'] + rest);
    FieldBack(fields, "", field, [':'] + rest);
    assert "" + field == field;
    SeparatorBack(fields, field, rest);
  }

  lemma FieldsBack(e: PgpassEntry)
    ensures FieldsFrom([], "", PrintEntry(e)) == [e.host, e.port, e.database, e.user, e.password]
  {
    hide FieldsFrom, Escaped;
    var d := Escaped(e.user) + [':'] + Escaped(e.password);
    var c := Escaped(e.database) + [':'] + d;
    var b := Escaped(e.port) + [':'] + c;
    FieldAndSeparator([], e.host, b);
    FieldAndSeparator([e.host], e.port, c);
    FieldAndSeparator([e.host, e.port], e.database, d);
    FieldAndSeparator([e.host, e.port, e.database], e.user, Escaped(e.password));
    assert [] + [e.host] == [e.host] && [e.host] + [e.port] == [e.host, e.port];
    assert [e.host, e.port] + [e.database] == [e.host, e.port, e.database];
    assert [e.host, e.port, e.database] + [e.user] == [e.host, e.port, e.database, e.user];
    LastField([e.host, e.port, e.database, e.user], e.password);
  }

  lemma LastField(fields: seq<string>, field: string)
    ensures FieldsFrom(fields, "", Escaped(field)) == fields + [field]
  {
    FieldBack(fields, "", field, "");
    assert Escaped(field) + "" == Escaped(field) && "" + field == field;
  }

  /* ---- The end of the line ---- */

  lemma {:induction false} EscapedConcat(a: string, b: string)
    ensures Escaped(a + b) == Escaped(a) + Escaped(b)
  {
    if a == "" {
      assert a + b == b;
    } else {
      assert (a + b)[1..] == a[1..] + b;
      EscapedConcat(a[1..], b);
    }
  }

  lemma {:induction false} TrimEscaped(front: string, field: string)
    requires front != "" && front[|front| - 1] == ':'
    ensures TrimEndChar(front + Escaped(field), '\r') == front + Escaped(TrimEndChar(field, '\r'))
    decreases |field|
  {
    if field == "" {
      assert front + Escaped(field) == front;
    } else {
      var n := |field| - 1;
      EscapedConcat(field[..n], [field[n]]);
      assert field == field[..n] + [field[n]];
      assert [field[n]][1..] == "";
      var line := front + Escaped(field);
      if field[n] == '\r' {
        assert Escaped([field[n]]) == ['\r'];
        assert line[|line| - 1] == '\r' && line[..|line| - 1] == front + Escaped(field[..n]);
        TrimEscaped(front, field[..n]);
      } else {
        assert line[|line| - 1] == field[n];
      }
    }
  }

  // Everything up to the password.
  function Front(e: PgpassEntry): string {
    Escaped(e.host) + [':'] + (Escaped(e.port) + [':'] + (Escaped(e.database) + [':'] + (Escaped(e.user) + [':'])))
  }

  lemma FrontFirst(e: PgpassEntry)
    ensures PrintEntry(e) == Front(e) + Escaped(e.password) && Front(e) != "" && Front(e)[|Front(e)| - 1] == ':'
  {
    hide Escaped;
  }

  lemma EntryBack(e: PgpassEntry)
    ensures EntryOf(PrintEntry(e)) == Some(Readable(e))
  {
    hide FieldsFrom, Escaped, PrintEntry, Front, TrimEndChar;
    FrontFirst(e);
    TrimEscaped(Front(e), e.password);
    FrontFirst(Readable(e));
    SameFront(e);
    FieldsBack(Readable(e));
  }

  lemma SameFront(e: PgpassEntry)
    ensures Front(Readable(e)) == Front(e)
  {
  }

  // The same line with one carriage return less.
  lemma ReturnDropped(e: PgpassEntry)
    ensures EntryOf(WithoutReturn(PrintEntry(e))) == Some(Readable(e))
  {
    hide FieldsFrom, PrintEntry;
    EntryBack(e);
    TrimWithoutReturn(PrintEntry(e));
  }

  lemma TrimWithoutReturn(line: string)
    ensures TrimEndChar(WithoutReturn(line), '\r') == TrimEndChar(line, '\r')
  {
  }

  /* ---- Lines ---- */

  lemma {:induction false} EscapedLacks(field: string)
    requires '\n' !in field
    ensures '\n' !in Escaped(field)
  {
    if field != "" {
      EscapedLacks(field[1..]);
    }
  }

  lemma EntryLacks(e: PgpassEntry)
    requires OneLine(e)
    ensures '\n' !in PrintEntry(e)
  {
    hide Escaped;
    EscapedLacks(e.host);
    EscapedLacks(e.port);
    EscapedLacks(e.database);
    EscapedLacks(e.user);
    EscapedLacks(e.password);
  }

  lemma {:induction false} TrimmedStart(field: string, rest: string)
    requires rest != "" && rest[0] == ':'
    ensures TrimStart(Escaped(field) + rest) != ""
    ensures TrimStart(Escaped(field) + rest)[0] == '#' <==> TrimStart(field) != "" && TrimStart(field)[0] == '#'
    decreases |field|
  {
    if field == "" {
      assert Escaped(field) + rest == rest;
    } else {
      var text := Escaped(field) + rest;
      assert text[0] == if field[0] == ':' then '\\' else field[0];
      if IsWhitespace(field[0]) {
        assert text[1..] == Escaped(field[1..]) + rest;
        TrimmedStart(field[1..], rest);
      }
    }
  }

  lemma {:induction false} TrimKeeps(s: string, i: nat)
    requires i < |s| && !IsWhitespace(s[i])
    ensures TrimEnd(s) != "" && i < |TrimEnd(s)| && TrimEnd(s)[i] == s[i]
    decreases |s|
  {
    if IsWhitespace(s[|s| - 1]) {
      TrimKeeps(s[..|s| - 1], i);
    }
  }

  lemma {:induction false} TrimStartKeeps(s: string, i: nat)
    requires i < |s| && !IsWhitespace(s[i])
    ensures TrimStart(s) != ""
    decreases |s|
  {
    if IsWhitespace(s[0]) {
      TrimStartKeeps(s[1..], i - 1);
    }
  }

  lemma NotBlank(line: string, i: nat)
    requires i < |line| && !IsWhitespace(line[i])
    ensures Trim(line) != ""
  {
    TrimKeeps(line, i);
    TrimStartKeeps(TrimEnd(line), i);
  }

  // A printed line is skipped exactly when its host makes it a comment.
  lemma SkippedExactly(e: PgpassEntry)
    ensures Skipped(PrintEntry(e)) <==> Commented(e)
    ensures Skipped(WithoutReturn(PrintEntry(e))) <==> Commented(e)
  {
    hide Escaped;
    var line := PrintEntry(e);
    var host := Escaped(e.host);
    var rest := line[|host|..];
    assert line == host + rest && rest[0] == ':';
    TrimmedStart(e.host, rest);
    NotBlank(line, |host|);
    var short := WithoutReturn(line);
    assert |rest| > 1 && |short| >= |line| - 1;
    assert short[..|host|] == host && short[|host|] == ':';
    TrimmedStart(e.host, short[|host|..]);
    assert short == host + short[|host|..];
    NotBlank(short, |host|);
  }

  lemma LinesNext(line: string, rest: string)
    requires '\n' !in line
    ensures Lines(line + ['\n'] + rest) == [WithoutReturn(line)] + Lines(rest)
  {
    SplitFirstAt(line, '\n', rest);
  }

  // One printed line.
  lemma LineBack(e: PgpassEntry, crlf: bool)
    ensures EntryPart()(WithoutReturn(PrintEntry(e) + (if crlf then ['\r'] else []))) == ReadablePart()(e)
  {
    hide EntryOf, PrintEntry, Skipped, Commented, Readable;
    var line := PrintEntry(e) + (if crlf then ['\r'] else []);
    SkippedExactly(e);
    EntryBack(e);
    ReturnDropped(e);
    if crlf {
      assert WithoutReturn(line) == PrintEntry(e);
    } else {
      assert line == PrintEntry(e);
    }
  }

  // A printed password file is read back without the lines that look like comments, and with carriage returns at the
  // end of a password taken for line endings.
  lemma {:induction false} PgpassBack(entries: seq<PgpassEntry>, crlf: seq<bool>)
    requires |crlf| == |entries| && forall i :: 0 <= i < |entries| ==> OneLine(entries[i])
    ensures ParsedPgpass(PrintPgpass(entries, crlf)) == Gather(entries, ReadablePart())
    decreases |entries|
  {
    hide EntryPart, ReadablePart, PrintEntry, Lines, OneLine;
    if entries == [] {
      NoLines();
    } else {
      var e, end := entries[0], if crlf[0] then ['\r'] else [];
      var rest := PrintPgpass(entries[1..], crlf[1..]);
      EntryLacks(e);
      LinesNext(PrintEntry(e) + end, rest);
      assert PrintPgpass(entries, crlf) == PrintEntry(e) + end + ['\n'] + rest;
      var lines := Lines(PrintPgpass(entries, crlf));
      GatherFirst(lines, EntryPart());
      LineBack(e, crlf[0]);
      PgpassBack(entries[1..], crlf[1..]);
      GatherFirst(entries, ReadablePart());
    }
  }

  lemma NoLines()
    ensures Lines("") == []
  {
  }

  predicate AllBack(entries: seq<PgpassEntry>) {
    forall i :: 0 <= i < |entries| ==> !Commented(entries[i]) && Readable(entries[i]) == entries[i]
  }

  lemma AllBackNext(entries: seq<PgpassEntry>)
    requires entries != []
    ensures var n := |entries| - 1;
      AllBack(entries) <==> AllBack(entries[..n]) && !Commented(entries[n]) && Readable(entries[n]) == entries[n]
  {
    hide Commented, Readable;
  }

  lemma {:induction false} AllReadable(entries: seq<PgpassEntry>)
    ensures Gather(entries, ReadablePart()) == entries <==> AllBack(entries)
    ensures |Gather(entries, ReadablePart())| <= |entries|
  {
    hide Commented, Readable, AllBack;
    if entries == [] {
      NothingLost();
    } else {
      var n := |entries| - 1;
      AllReadable(entries[..n]);
      AllBackNext(entries);
      LastKept(Gather(entries[..n], ReadablePart()), ReadablePart()(entries[n]), entries);
    }
  }

  lemma NothingLost()
    ensures AllBack([])
  {
  }

  // A list that loses nothing loses nothing at its end.
  lemma LastKept(front: seq<PgpassEntry>, last: seq<PgpassEntry>, entries: seq<PgpassEntry>)
    requires entries != [] && |front| <= |entries| - 1 && |last| <= 1
    ensures front + last == entries <==> front == entries[..|entries| - 1] && last == [entries[|entries| - 1]]
  {
    if front + last == entries {
      assert |front| == |entries| - 1 && |last| == 1;
      assert entries[..|front|] == front && entries[|front|..] == last;
    }
  }

  lemma TrimEndCharSame(s: string, c: char)
    ensures TrimEndChar(s, c) == s <==> s == "" || s[|s| - 1] != c
  {
    if s != "" && s[|s| - 1] == c {
      TrimEndCharShorter(s[..|s| - 1], c);
    }
  }

  lemma {:induction false} TrimEndCharShorter(s: string, c: char)
    ensures |TrimEndChar(s, c)| <= |s|
  {
    if s != "" && s[|s| - 1] == c {
      TrimEndCharShorter(s[..|s| - 1], c);
    }
  }

  // Exactly the files without such lines and passwords come back as they were.
  lemma PgpassBackExactly(entries: seq<PgpassEntry>, crlf: seq<bool>)
    requires |crlf| == |entries| && forall i :: 0 <= i < |entries| ==> OneLine(entries[i])
    ensures ParsedPgpass(PrintPgpass(entries, crlf)) == entries <==>
            forall i :: 0 <= i < |entries| ==>
              !Commented(entries[i]) &&
                (entries[i].password == "" || entries[i].password[|entries[i].password| - 1] != '\r')
  {
    hide ParsedPgpass, PrintPgpass, Commented, OneLine;
    PgpassBack(entries, crlf);
    AllReadable(entries);
    forall i | 0 <= i < |entries|
      ensures Readable(entries[i]) == entries[i] <==>
              entries[i].password == "" || entries[i].password[|entries[i].password| - 1] != '\r'
    {
      TrimEndCharSame(entries[i].password, '\r');
    }
  }
}

/** Which files are read as which entries, what a lookup finds, and which connection an entry names. */
module PgpassCorrect {
  import opened Options
  import opened Gathering
  import opened Text
  import opened TextCorrect
  import opened Numbers
  import opened Splitting
  import opened ConnectionUrl
  import opened UrlCorrect
  import opened Pgpass

  /* ---- Fields ---- */

  // A character of a field, as it stands or behind a backslash.
  datatype Unit = Bare(c: char) | Escaped(c: char)

  function PrintUnit(u: Unit): string { if u.Bare? then [u.c] else ['\\', u.c] }

  function PrintUnits(units: seq<Unit>): string {
    if units == [] then "" else PrintUnit(units[0]) + PrintUnits(units[1..])
  }

  function ValueOf(units: seq<Unit>): string { seq(|units|, i requires 0 <= i < |units| => units[i].c) }

  // Colons end a field, but for the fifth.
  predicate UnitOk(u: Unit, fifth: bool) { u.Bare? ==> u.c != '\\' && (u.c == ':' ==> fifth) }

  predicate UnitsOk(units: seq<Unit>, fifth: bool) { forall i :: 0 <= i < |units| ==> UnitOk(units[i], fifth) }

  // Fields after `done` others.
  predicate FieldsOk(done: nat, fields: seq<seq<Unit>>) {
    fields != [] && done + |fields| <= 5 && forall i :: 0 <= i < |fields| ==> UnitsOk(fields[i], done + i == 4)
  }

  // A backslash at the very end stands for nothing.
  function PrintFields(fields: seq<seq<Unit>>, dangling: bool): string
    requires fields != []
  {
    PrintUnits(fields[0]) +
    if |fields| > 1 then [':'] + PrintFields(fields[1..], dangling) else if dangling then ['\\'] else ""
  }

  function ValuesOf(fields: seq<seq<Unit>>): seq<string> {
    seq(|fields|, i requires 0 <= i < |fields| => ValueOf(fields[i]))
  }

  lemma UnitRead(fields: seq<string>, current: string, u: Unit, rest: string)
    requires UnitOk(u, |fields| == 4) && |fields| <= 4
    ensures FieldsFrom(fields, current, PrintUnit(u) + rest) == FieldsFrom(fields, current + [u.c], rest)
  {
    assert (PrintUnit(u) + rest)[|PrintUnit(u)|..] == rest;
  }

  lemma FieldEnds(fields: seq<string>, current: string, rest: string, dangling: bool)
    ensures |fields| < 4 ==>
      FieldsFrom(fields, current, [':'] + rest) == FieldsFrom(fields + [current], "", rest)
    ensures FieldsFrom(fields, current, if dangling then ['\\'] else "") == fields + [current]
  {
    assert ([':'] + rest)[1..] == rest;
  }

  lemma {:induction false} FieldsRead(fields: seq<string>, current: string, units: seq<seq<Unit>>, dangling: bool)
    requires FieldsOk(|fields|, units)
    ensures FieldsFrom(fields, current, PrintFields(units, dangling)) ==
            fields + [current + ValueOf(units[0])] + ValuesOf(units[1..])
    decreases |PrintFields(units, dangling)|
  {
    hide FieldsFrom, PrintUnit;
    var text := PrintFields(units, dangling);
    if units[0] == [] {
      assert current + ValueOf(units[0]) == current;
      if |units| == 1 {
        assert text == if dangling then ['\\'] else "";
        FieldEnds(fields, current, "", dangling);
        assert fields + [current] + ValuesOf(units[1..]) == fields + [current];
      } else {
        var rest := PrintFields(units[1..], dangling);
        assert text == [':'] + rest;
        FieldEnds(fields, current, rest, dangling);
        FieldsRead(fields + [current], "", units[1..], dangling);
        assert "" + ValueOf(units[1]) == ValueOf(units[1]);
        assert ValuesOf(units[1..]) == [ValueOf(units[1])] + ValuesOf(units[1..][1..]);
      }
    } else {
      var u, others := units[0][0], [units[0][1..]] + units[1..];
      assert others[1..] == units[1..];
      UnitPrinted(u);
      assert text == PrintUnit(u) + PrintFields(others, dangling);
      UnitRead(fields, current, u, PrintFields(others, dangling));
      FieldsRead(fields, current + [u.c], others, dangling);
      assert current + [u.c] + ValueOf(units[0][1..]) == current + ValueOf(units[0]);
    }
  }

  lemma UnitPrinted(u: Unit)
    ensures PrintUnit(u) != ""
  {
  }

  lemma {:induction false} FieldsSpelled(done: nat, text: string) returns (units: seq<seq<Unit>>, dangling: bool)
    requires done <= 4
    ensures FieldsOk(done, units) && PrintFields(units, dangling) == text
    decreases |text|
  {
    if text == "" || text == ['\\'] {
      units, dangling := [[]], text != "";
    } else if text[0] == ':' && done < 4 {
      var more, end := FieldsSpelled(done + 1, text[1..]);
      EmptyFieldFirst(done, more, end);
      units, dangling := [[]] + more, end;
      assert text == [':'] + text[1..];
    } else {
      var u := if text[0] == '\\' then Escaped(text[1]) else Bare(text[0]);
      var n := |PrintUnit(u)|;
      var more, end := FieldsSpelled(done, text[n..]);
      UnitFirst(done, u, more, end);
      units, dangling := [[u] + more[0]] + more[1..], end;
      assert text == PrintUnit(u) + text[n..];
    }
  }

  lemma EmptyFieldFirst(done: nat, more: seq<seq<Unit>>, dangling: bool)
    requires done < 4 && FieldsOk(done + 1, more)
    ensures FieldsOk(done, [[]] + more) && PrintFields([[]] + more, dangling) == [':'] + PrintFields(more, dangling)
  {
    assert ([[]] + more)[1..] == more;
  }

  lemma UnitFirst(done: nat, u: Unit, more: seq<seq<Unit>>, dangling: bool)
    requires FieldsOk(done, more) && UnitOk(u, done == 4)
    ensures var all := [[u] + more[0]] + more[1..];
      FieldsOk(done, all) && PrintFields(all, dangling) == PrintUnit(u) + PrintFields(more, dangling)
  {
    var all := [[u] + more[0]] + more[1..];
    assert all[1..] == more[1..] && all[0][1..] == more[0];
    assert UnitsOk(all[0], done == 4) by {
      assert UnitsOk(more[0], done == 4);
    }
  }

  /* ---- Lines ---- */

  // The line is these fields, perhaps with carriage returns at its end.
  ghost predicate Spells(line: string, fields: seq<seq<Unit>>) {
    FieldsOk(0, fields) && exists dangling, returned :: LineIs(line, PrintFields(fields, dangling), returned)
  }

  predicate LineIs(line: string, text: string, returned: string) {
    line == text + returned && Only(returned, '\r') && (text == "" || text[|text| - 1] != '\r')
  }

  ghost predicate SpellsEntry(line: string, e: PgpassEntry) {
    exists fields :: Spells(line, fields) && ValuesOf(fields) == [e.host, e.port, e.database, e.user, e.password]
  }

  lemma LineTrims(line: string, text: string)
    ensures (exists returned :: LineIs(line, text, returned)) <==> text == TrimEndChar(line, '\r')
  {
    if returned :| LineIs(line, text, returned) {
      TrimEndCharIs(text, returned, '\r');
    }
    if text == TrimEndChar(line, '\r') {
      var n := TrimEndCharExactly(line, '\r');
      assert line == line[..n] + line[n..];
      assert LineIs(line, text, line[n..]);
    }
  }

  lemma EntryExactly(line: string, e: PgpassEntry)
    ensures EntryOf(line) == Some(e) <==> SpellsEntry(line, e)
  {
    hide FieldsFrom, PrintFields, LineIs, FieldsOk;
    var text := TrimEndChar(line, '\r');
    if EntryOf(line) == Some(e) {
      var units, dangling := FieldsSpelled(0, text);
      LineTrims(line, text);
      WholeRead(units, dangling);
      assert Spells(line, units);
    }
    if SpellsEntry(line, e) {
      var units :| Spells(line, units) && ValuesOf(units) == [e.host, e.port, e.database, e.user, e.password];
      var dangling, returned :| LineIs(line, PrintFields(units, dangling), returned);
      LineTrims(line, PrintFields(units, dangling));
      WholeRead(units, dangling);
    }
  }

  lemma WholeRead(units: seq<seq<Unit>>, dangling: bool)
    requires FieldsOk(0, units)
    ensures FieldsFrom([], "", PrintFields(units, dangling)) == ValuesOf(units)
  {
    FieldsRead([], "", units, dangling);
    assert "" + ValueOf(units[0]) == ValueOf(units[0]);
    assert ValuesOf(units) == [ValueOf(units[0])] + ValuesOf(units[1..]);
  }

  // Only whitespace, or a hash sign after whitespace.
  ghost predicate SaysNothing(line: string) {
    exists i: nat :: i <= |line| && Spaces(line[..i]) && (i == |line| || line[i] == '#')
  }

  lemma SkippedMeans(line: string)
    ensures Skipped(line) <==> SaysNothing(line)
  {
    var a := TrimStartExactly(line);
    var n := |a|;
    TrimmedNothing(line);
    forall k | 0 <= k < n
      ensures Space(line[k])
    {
      assert line[k] == a[k];
    }
    assert line[..n] == a && line[n..] == TrimStart(line);
    SpaceIs('#');
    if Skipped(line) {
      assert Spaces(line[..n]) && (n == |line| || line[n] == '#');
    }
    if i: nat :| i <= |line| && Spaces(line[..i]) && (i == |line| || line[i] == '#') {
      forall k | 0 <= k < i
        ensures Space(line[k])
      {
        assert Space(line[..i][k]);
      }
      assert n < |line| ==> i == n;
    }
  }

  lemma TrimmedNothing(line: string)
    ensures Trim(line) == "" <==> TrimStart(line) == ""
  {
    var a := TrimStartExactly(line);
    TrimExactly(line);
    assert TrimStart(line) != "" ==> !Space(line[|a|]);
    if TrimStart(line) == "" {
      assert Around(line, a, "", "");
      TrimsOne(line, "");
    } else if Trim(line) == "" {
      var m, n := TrimsWithin(line, "");
    }
  }

  /* ---- The file ---- */

  datatype Ended = Ended(line: string, crlf: bool)

  predicate EndedOk(e: Ended) {
    '\n' !in e.line && (!e.crlf ==> e.line == "" || e.line[|e.line| - 1] != '\r')
  }

  // Lines with their ends, and what comes after the last line end.
  function PrintEnded(lines: seq<Ended>, open: string): string {
    if lines == [] then open
    else lines[0].line + (if lines[0].crlf then ['\r'] else "") + ['\n'] + PrintEnded(lines[1..], open)
  }

  function AllLines(lines: seq<Ended>, open: string): seq<string> {
    if lines == [] then if open == "" then [] else [open] else [lines[0].line] + AllLines(lines[1..], open)
  }

  lemma {:induction false} LinesRead(lines: seq<Ended>, open: string)
    requires (forall i :: 0 <= i < |lines| ==> EndedOk(lines[i])) && '\n' !in open
    ensures Lines(PrintEnded(lines, open)) == AllLines(lines, open)
  {
    if lines == [] {
      SplitFirstExactly(open, '\n');
    } else {
      var e := lines[0];
      var line := e.line + if e.crlf then ['\r'] else "";
      SplitFirstAt(line, '\n', PrintEnded(lines[1..], open));
      assert WithoutReturn(line) == e.line;
      LinesRead(lines[1..], open);
    }
  }

  lemma {:induction false} EveryFile(content: string) returns (lines: seq<Ended>, open: string)
    ensures (forall i :: 0 <= i < |lines| ==> EndedOk(lines[i])) && '\n' !in open
    ensures PrintEnded(lines, open) == content
    decreases |content|
  {
    SplitFirstExactly(content, '\n');
    var split := SplitFirst(content, '\n');
    if split.None? {
      lines, open := [], content;
    } else {
      SplitShorter(content, '\n');
      var more, end := EveryFile(split.value.1);
      var line := split.value.0;
      var crlf := line != "" && line[|line| - 1] == '\r';
      var first := Ended(if crlf then line[..|line| - 1] else line, crlf);
      assert line == first.line + if crlf then ['\r'] else "";
      lines, open := [first] + more, end;
      assert lines[1..] == more;
    }
  }

  // The entries are those of the lines that spell one and say something, in their order.
  ghost predicate EntriesOf(lines: seq<string>, entries: seq<PgpassEntry>) {
    if lines == [] then entries == []
    else
      var n := |lines| - 1;
      if !SaysNothing(lines[n]) && exists e :: SpellsEntry(lines[n], e) then
        entries != [] && SpellsEntry(lines[n], entries[|entries| - 1]) &&
        EntriesOf(lines[..n], entries[..|entries| - 1])
      else EntriesOf(lines[..n], entries)
  }

  lemma LineExactly(line: string)
    ensures var found := EntryPart()(line);
      if !SaysNothing(line) && exists e :: SpellsEntry(line, e) then
        EntryOf(line).Some? && found == [EntryOf(line).value] && SpellsEntry(line, EntryOf(line).value)
      else found == []
  {
    hide EntryOf, Skipped, SpellsEntry, SaysNothing;
    SkippedMeans(line);
    forall e
      ensures EntryOf(line) == Some(e) <==> SpellsEntry(line, e)
    {
      EntryExactly(line, e);
    }
  }

  lemma {:induction false} LinesExactly(lines: seq<string>)
    ensures EntriesOf(lines, Gather(lines, EntryPart()))
  {
    hide EntryOf, EntryPart, SpellsEntry, SaysNothing;
    if lines != [] {
      var n := |lines| - 1;
      LinesExactly(lines[..n]);
      LineExactly(lines[n]);
      var front := Gather(lines[..n], EntryPart());
      assert front + [] == front;
    }
  }

  // Every file is read as the entries of its lines.
  lemma FileExactly(content: string)
    ensures exists lines, open ::
      (forall i :: 0 <= i < |lines| ==> EndedOk(lines[i])) && '\n' !in open && PrintEnded(lines, open) == content &&
      EntriesOf(AllLines(lines, open), ParsedPgpass(content))
  {
    hide EntriesOf, EndedOk, Lines, EntryPart;
    var lines, open := EveryFile(content);
    LinesRead(lines, open);
    LinesExactly(AllLines(lines, open));
  }

  /* ---- Lookup and connections ---- */

  // A star matches everything.
  ghost predicate Fits(e: PgpassEntry, t: Target) {
    (e.host == "*" || e.host == t.host) && (e.port == "*" || e.port == Decimal(t.port)) &&
    (e.database == "*" || e.database == t.database) && (e.user == "*" || e.user == t.user)
  }

  ghost predicate FirstFit(entries: seq<PgpassEntry>, t: Target, i: int) {
    0 <= i < |entries| && Fits(entries[i], t) && forall j :: 0 <= j < i ==> !Fits(entries[j], t)
  }

  // A lookup finds the password of the first entry that fits.
  lemma {:induction false} LookupExactly(entries: seq<PgpassEntry>, t: Target)
    ensures PgpassPassword(entries, t).None? <==> forall i :: 0 <= i < |entries| ==> !Fits(entries[i], t)
    ensures PgpassPassword(entries, t).Some? ==>
      exists i :: FirstFit(entries, t, i) && PgpassPassword(entries, t) == Some(entries[i].password)
  {
    if entries != [] {
      if EntryMatches(entries[0], t) {
        assert FirstFit(entries, t, 0);
      } else {
        LookupExactly(entries[1..], t);
        assert forall i :: 0 < i < |entries| ==> entries[i] == entries[1..][i - 1];
        if PgpassPassword(entries, t).Some? {
          var i :| FirstFit(entries[1..], t, i) && PgpassPassword(entries, t) == Some(entries[1..][i].password);
          assert FirstFit(entries, t, i + 1);
        }
      }
    }
  }

  // The target an entry names: its host and user must be given, and the host no socket.
  ghost predicate Names(e: PgpassEntry, t: Target) {
    e.host != "" && e.host != "*" && e.host[0] != '/' && e.user != "*" && t.host == e.host && t.user == e.user &&
    (if e.port == "*" then t.port == 5432 else PortOf(e.port, t.port)) &&
    t.database == if e.database == "*" then "postgres" else e.database
  }

  lemma TargetExactly(e: PgpassEntry, t: Target)
    ensures TargetOf(e) == Some(t) <==> Names(e, t)
  {
    hide ParsePort, PortOf;
    PortExactly(e.port, t.port);
  }

  // Each listed connection is the one its entry names: not encrypted, with the entry's password if it has one.
  lemma ConnectionExactly(entries: seq<PgpassEntry>, connections: seq<ImportedConnection>, lines: seq<nat>, k: nat)
    requires FromEarliest(entries, connections, lines) && k < |connections|
    ensures var c := connections[k];
      lines[k] < |entries| && Names(entries[lines[k]], Target(c.host, c.port, c.database, c.user)) &&
      (forall i, t :: 0 <= i < lines[k] && Names(entries[i], t) ==> t != Target(c.host, c.port, c.database, c.user)) &&
      c.title == (if c.database == "" then c.host else c.database + "@" + c.host) &&
      !c.ssl && !c.sslDowngraded && c.ignored == [] &&
      c.password == if entries[lines[k]].password == "" then None else Some(entries[lines[k]].password)
  {
    hide TargetOf, Names;
    assert ComesFrom(entries, connections[k], lines[k]);
    var c, t := connections[k], TargetOf(entries[lines[k]]).value;
    TargetExactly(entries[lines[k]], t);
    assert t == Target(c.host, c.port, c.database, c.user);
    forall i, u | 0 <= i < lines[k] && Names(entries[i], u)
      ensures u != t
    {
      TargetExactly(entries[i], u);
    }
  }

  // And every target an entry names has its connection.
  lemma EveryTarget(entries: seq<PgpassEntry>, connections: seq<ImportedConnection>, i: nat, t: Target)
    requires Covers(entries, connections) && i < |entries| && Names(entries[i], t)
    ensures exists k :: 0 <= k < |connections| && ConnectionTarget(connections[k]) == t
  {
    hide TargetOf, Names;
    TargetExactly(entries[i], t);
  }
}
