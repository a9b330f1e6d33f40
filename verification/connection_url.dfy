/** Percent-encoding, section 2.1 of RFC 3986. */
module Percent {
  import opened Options
  import opened ByteStrings
  import opened Gathering

  // How text becomes bytes and back; the decoder refuses what is not UTF-8.
  datatype Codec = Codec(encode: string -> Bytes, decode: Bytes -> Option<string>)

  predicate IsAscii(s: string) { forall i :: 0 <= i < |s| ==> s[i] < '\U{0080}' }

  function AsciiBytes(s: string): Bytes
    requires IsAscii(s)
  {
    seq(|s|, i requires 0 <= i < |s| => s[i] as int as byte)
  }

  // What the results need of UTF-8.
  ghost predicate Lawful(codec: Codec) {
    (forall s: string :: codec.decode(codec.encode(s)) == Some(s)) &&
    (forall a: string, b: string :: codec.encode(a + b) == codec.encode(a) + codec.encode(b)) &&
    (forall s: string :: IsAscii(s) ==> codec.encode(s) == AsciiBytes(s))
  }

  const PERCENT: byte := 37
  const NUL := '\U{0000}'

  predicate IsHex(b: byte) { 48 <= b <= 57 || 65 <= b <= 70 || 97 <= b <= 102 }

  function HexValue(b: byte): (n: nat)
    requires IsHex(b)
    ensures n < 16
  {
    if b <= 57 then b as int - 48 else if b <= 70 then b as int - 55 else b as int - 87
  }

  // `u8::from_str_radix` of two characters, which takes a plus sign for the first.
  function HexPair(a: byte, b: byte): Option<byte> {
    if IsHex(a) && IsHex(b) then Some((HexValue(a) * 16 + HexValue(b)) as byte)
    else if a == 43 && IsHex(b) then Some(HexValue(b) as byte)
    else None
  }

  function DecodeBytes(bytes: Bytes): Option<Bytes> {
    if bytes == [] then Some([])
    else if bytes[0] == PERCENT then
      if |bytes| < 3 || HexPair(bytes[1], bytes[2]).None? then None
      else
        var rest := DecodeBytes(bytes[3..]);
        if rest.None? then None else Some([HexPair(bytes[1], bytes[2]).value] + rest.value)
    else
      var rest := DecodeBytes(bytes[1..]);
      if rest.None? then None else Some([bytes[0]] + rest.value)
  }

  function PercentDecode(codec: Codec, value: string): Option<string> {
    var bytes := DecodeBytes(codec.encode(value));
    if bytes.None? then None
    else
      var text := codec.decode(bytes.value);
      if text.None? || NUL in text.value then None else text
  }

  ghost function Before(read: Bytes, rest: Option<Bytes>): Option<Bytes> {
    if rest.None? then None else Some(read + rest.value)
  }

  lemma DecodeNext(read: Bytes, bytes: Bytes)
    requires bytes != []
    ensures bytes[0] != PERCENT ==>
      Before(read, DecodeBytes(bytes)) == Before(read + [bytes[0]], DecodeBytes(bytes[1..]))
    ensures bytes[0] == PERCENT && (|bytes| < 3 || HexPair(bytes[1], bytes[2]).None?) ==> DecodeBytes(bytes).None?
    ensures bytes[0] == PERCENT && |bytes| >= 3 && HexPair(bytes[1], bytes[2]).Some? ==>
      Before(read, DecodeBytes(bytes)) == Before(read + [HexPair(bytes[1], bytes[2]).value], DecodeBytes(bytes[3..]))
  {
    var skip := if bytes[0] == PERCENT && |bytes| >= 3 then 3 else 1;
    var rest := DecodeBytes(bytes[skip..]);
    var b := if bytes[0] != PERCENT || skip == 1 then bytes[0]
      else if HexPair(bytes[1], bytes[2]).Some? then HexPair(bytes[1], bytes[2]).value else 0;
    assert rest.Some? ==> read + ([b] + rest.value) == read + [b] + rest.value;
  }

  method DecodePercent(codec: Codec, value: string) returns (decoded: Option<string>)
    ensures decoded == PercentDecode(codec, value)
  {
    hide DecodeBytes;
    var bytes := codec.encode(value);
    ghost var whole := DecodeBytes(bytes);
    var read: Bytes, index := [], 0;
    BeforeNothing(bytes);
    while index < |bytes|
      invariant index <= |bytes| && whole == Before(read, DecodeBytes(bytes[index..]))
    {
      DecodeNext(read, bytes[index..]);
      if bytes[index] == PERCENT {
        if index + 3 > |bytes| {
          return None;
        }
        var pair := HexPair(bytes[index + 1], bytes[index + 2]);
        if pair.None? {
          return None;
        }
        assert bytes[index..][3..] == bytes[index + 3..];
        read, index := read + [pair.value], index + 3;
      } else {
        assert bytes[index..][1..] == bytes[index + 1..];
        read, index := read + [bytes[index]], index + 1;
      }
    }
    BeforeEnd(read);
    assert bytes[index..] == [];
    var text := codec.decode(read);
    return if text.None? || NUL in text.value then None else text;
  }

  lemma BeforeNothing(bytes: Bytes)
    ensures DecodeBytes(bytes) == Before([], DecodeBytes(bytes[0..]))
  {
    assert bytes[0..] == bytes;
    var rest := DecodeBytes(bytes);
    assert rest.Some? ==> [] + rest.value == rest.value;
  }

  lemma BeforeEnd(read: Bytes)
    ensures Before(read, DecodeBytes([])) == Some(read)
  {
    assert read + [] == read;
  }

  lemma BeforeTwice(read: Bytes, more: Bytes, rest: Option<Bytes>)
    ensures Before(read, Before(more, rest)) == Before(read + more, rest)
  {
    if rest.Some? {
      assert read + (more + rest.value) == read + more + rest.value;
    }
  }

  /* ---- Encoding, and decoding what was encoded ---- */

  predicate Unreserved(b: byte) {
    48 <= b <= 57 || 65 <= b <= 90 || 97 <= b <= 122 || b == 45 || b == 46 || b == 95 || b == 126
  }

  function HexDigit(n: nat): (c: char)
    requires n < 16
    ensures '0' <= c <= '9' || 'A' <= c <= 'F'
  {
    if n < 10 then '0' + n as char else 'A' + (n - 10) as char
  }

  // Everything but unreserved characters is written in hex; a bracketed host keeps its colons.
  function PrintByte(colons: bool, b: byte): string {
    if Unreserved(b) || (colons && b == 58) then [b as int as char]
    else ['%', HexDigit(b as int / 16), HexDigit(b as int % 16)]
  }

  function PrintPart(colons: bool): byte -> string { (b: byte) => PrintByte(colons, b) }

  function PercentEncode(codec: Codec, colons: bool, value: string): string {
    Gather(codec.encode(value), PrintPart(colons))
  }

  // Characters an encoded component may hold.
  predicate Safe(colons: bool, c: char) {
    'a' <= c <= 'z' || 'A' <= c <= 'Z' || '0' <= c <= '9' || c == '-' || c == '.' || c == '_' || c == '~' || c == '%' ||
    (colons && c == ':')
  }

  predicate AllSafe(colons: bool, s: string) { forall i :: 0 <= i < |s| ==> Safe(colons, s[i]) }

  lemma {:induction false} PrintedSafe(colons: bool, bytes: Bytes)
    ensures AllSafe(colons, Gather(bytes, PrintPart(colons))) && IsAscii(Gather(bytes, PrintPart(colons)))
  {
    if bytes != [] {
      PrintedSafe(colons, bytes[..|bytes| - 1]);
    }
  }

  lemma HexRoundTrip(b: byte)
    ensures var h, l := HexDigit(b as int / 16), HexDigit(b as int % 16);
      HexPair(h as int as byte, l as int as byte) == Some(b)
  {
  }

  lemma DecodePrintedByte(colons: bool, b: byte, rest: Bytes)
    ensures IsAscii(PrintByte(colons, b))
    ensures DecodeBytes(AsciiBytes(PrintByte(colons, b)) + rest) == Before([b], DecodeBytes(rest))
  {
    var printed := AsciiBytes(PrintByte(colons, b));
    assert (printed + rest)[|printed|..] == rest;
    HexRoundTrip(b);
  }

  lemma AsciiConcat(a: string, b: string)
    requires IsAscii(a) && IsAscii(b)
    ensures IsAscii(a + b) && AsciiBytes(a + b) == AsciiBytes(a) + AsciiBytes(b)
  {
  }

  lemma {:induction false} DecodePrinted(colons: bool, bytes: Bytes, rest: Bytes)
    ensures IsAscii(Gather(bytes, PrintPart(colons)))
    ensures DecodeBytes(AsciiBytes(Gather(bytes, PrintPart(colons))) + rest) == Before(bytes, DecodeBytes(rest))
  {
    PrintedSafe(colons, bytes);
    if bytes == [] {
      assert AsciiBytes("") + rest == rest;
      BeforeNothing(rest);
      assert rest[0..] == rest;
    } else {
      var n := |bytes| - 1;
      var front, last := Gather(bytes[..n], PrintPart(colons)), PrintByte(colons, bytes[n]);
      PrintedSafe(colons, bytes[..n]);
      DecodePrintedByte(colons, bytes[n], rest);
      AsciiConcat(front, last);
      assert AsciiBytes(front + last) + rest == AsciiBytes(front) + (AsciiBytes(last) + rest);
      DecodePrinted(colons, bytes[..n], AsciiBytes(last) + rest);
      BeforeTwice(bytes[..n], [bytes[n]], DecodeBytes(rest));
      assert bytes == bytes[..n] + [bytes[n]];
    }
  }

  // Decoding undoes encoding, except that a NUL character is refused.
  lemma PercentRoundTrip(codec: Codec, colons: bool, value: string)
    requires Lawful(codec)
    ensures PercentDecode(codec, PercentEncode(codec, colons, value)) == if NUL in value then None else Some(value)
    ensures AllSafe(colons, PercentEncode(codec, colons, value))
  {
    var bytes := codec.encode(value);
    PrintedSafe(colons, bytes);
    DecodePrinted(colons, bytes, []);
    BeforeEnd(bytes);
    var printed := PercentEncode(codec, colons, value);
    assert AsciiBytes(printed) + [] == AsciiBytes(printed);
    assert codec.encode(printed) == AsciiBytes(printed);
  }

  lemma {:induction false} DecodePlain(bytes: Bytes)
    requires forall i :: 0 <= i < |bytes| ==> bytes[i] != PERCENT
    ensures DecodeBytes(bytes) == Some(bytes)
  {
    if bytes != [] {
      DecodePlain(bytes[1..]);
      assert bytes == [bytes[0]] + bytes[1..];
    }
  }

  // ASCII text without a percent sign stands for itself.
  lemma PlainDecodes(codec: Codec, value: string)
    requires Lawful(codec) && IsAscii(value) && NUL !in value && '%' !in value
    ensures PercentDecode(codec, value) == Some(value)
  {
    DecodePlain(AsciiBytes(value));
  }
}

/** libpq connection URIs. */
module ConnectionUrl {
  import opened Options
  import opened Gathering
  import opened Names
  import opened Text
  import opened Numbers
  import opened Splitting
  import opened Percent

  datatype ImportedConnection = ImportedConnection(
    title: string, host: string, port: nat, database: string, user: string, ssl: bool, sslDowngraded: bool,
    password: Option<string>, ignored: seq<string>)

  datatype UrlError = Scheme | Encoding | MultipleHosts | UnixSocket | Port | SslMode | Malformed

  const DEFAULT_PORT := 5432
  const DEFAULT_HOST := "localhost"

  // A prefix in any letter case.
  function AfterPrefix(text: string, prefix: string): Option<string> {
    if |text| >= |prefix| && AsciiLower(text[..|prefix|]) == AsciiLower(prefix) then Some(text[|prefix|..]) else None
  }

  /* ---- The parts ---- */

  function OkOr<T, E>(value: Option<T>, error: E): Result<T, E> {
    if value.None? then Err(error) else Ok(value.value)
  }

  // `parse::<u16>` takes a plus sign; 0 is no port.
  function ParsePort(value: string): Option<nat> {
    var digits := if value != "" && value[0] == '+' then value[1..] else value;
    if digits == "" || !AllDigits(digits) then None
    else if 0 < DigitsValue(digits) <= 65535 then Some(DigitsValue(digits)) else None
  }

  function SslFromMode(mode: string): Option<(bool, bool)> {
    if mode == "disable" || mode == "allow" || mode == "prefer" then Some((false, false))
    else if mode == "require" then Some((true, false))
    else if mode == "verify-ca" || mode == "verify-full" then Some((true, true))
    else None
  }

  function SplitBracketed(codec: Codec, bracketed: string): Result<(string, Option<nat>), UrlError> {
    var parts :- OkOr(SplitFirst(bracketed, ']'), Malformed);
    var port :-
      if parts.1 == "" then Ok(None)
      else if parts.1[0] != ':' then Err(Malformed)
      else if ParsePort(parts.1[1..]).None? then Err(Port)
      else Ok(ParsePort(parts.1[1..]));
    if parts.0 == "" || ':' !in parts.0 then Err(Malformed)
    else
      var host :- OkOr(PercentDecode(codec, parts.0), Encoding);
      Ok((host, port))
  }

  function SplitHostPort(codec: Codec, hostinfo: string): Result<(string, Option<nat>), UrlError> {
    if hostinfo != "" && hostinfo[0] == '[' then SplitBracketed(codec, hostinfo[1..])
    else
      var parts := SplitLast(hostinfo, ':');
      if parts.None? then
        var host :- OkOr(PercentDecode(codec, hostinfo), Encoding);
        Ok((host, None))
      else if parts.value.1 != "" && ParsePort(parts.value.1).None? then Err(Port)
      else
        var host :- OkOr(PercentDecode(codec, parts.value.0), Encoding);
        Ok((host, ParsePort(parts.value.1)))
  }

  function UserAndPassword(codec: Codec, userinfo: Option<string>): Result<(string, Option<string>), UrlError> {
    if userinfo.None? then Ok(("", None))
    else
      var parts := SplitFirst(userinfo.value, ':');
      var rawUser := if parts.Some? then parts.value.0 else userinfo.value;
      var user :- OkOr(PercentDecode(codec, rawUser), Encoding);
      if parts.None? then Ok((user, None))
      else
        var password :- OkOr(PercentDecode(codec, parts.value.1), Encoding);
        Ok((user, Some(password)))
  }

  // The fields while the query parameters are read.
  datatype Draft = Draft(
    host: string, port: Option<nat>, database: string, user: string, password: Option<string>,
    ssl: bool, sslDowngraded: bool, ignored: seq<string>)

  function ApplyParameter(d: Draft, key: string, value: string): Result<Draft, UrlError> {
    if key == "host" || key == "hostaddr" then
      if ',' in value then Err(MultipleHosts)
      else if key == "host" || d.host == "" then Ok(d.(host := value)) else Ok(d)
    else if key == "port" then
      if ParsePort(value).None? then Err(Port) else Ok(d.(port := ParsePort(value)))
    else if key == "dbname" then Ok(d.(database := value))
    else if key == "user" then Ok(d.(user := value))
    else if key == "password" then Ok(d.(password := Some(value)))
    else if key == "sslmode" then
      var mode :- OkOr(SslFromMode(value), SslMode);
      Ok(d.(ssl := mode.0, sslDowngraded := mode.1))
    else Ok(d.(ignored := d.ignored + [key]))
  }

  function ApplyPair(codec: Codec, d: Draft, pair: string): Result<Draft, UrlError> {
    if pair == "" then Ok(d)
    else
      var parts :- OkOr(SplitFirst(pair, '='), Malformed);
      var key :- OkOr(PercentDecode(codec, parts.0), Encoding);
      var value :- OkOr(PercentDecode(codec, parts.1), Encoding);
      ApplyParameter(d, key, value)
  }

  function ApplyPairs(codec: Codec, d: Draft, pairs: seq<string>): Result<Draft, UrlError>
    decreases |pairs|
  {
    if pairs == [] then Ok(d)
    else
      var next :- ApplyPair(codec, d, pairs[0]);
      ApplyPairs(codec, next, pairs[1..])
  }

  function DefaultLabel(database: string, host: string): string {
    if database == "" then host else database + "@" + host
  }

  // Sorted, each name once.
  ghost function Ignored(names: seq<string>): seq<string> { Sorted(set n | n in names) }

  ghost function Finished(d: Draft): Result<ImportedConnection, UrlError> {
    if d.host != "" && (d.host[0] == '/' || d.host[0] == '@') then Err(UnixSocket)
    else
      var host := if d.host == "" then DEFAULT_HOST else d.host;
      var database := if d.database == "" then d.user else d.database;
      Ok(ImportedConnection(
        DefaultLabel(database, host), host, if d.port.None? then DEFAULT_PORT else d.port.value, database, d.user,
        d.ssl, d.sslDowngraded, if d.password == Some("") then None else d.password, Ignored(d.ignored)))
  }

  function AfterScheme(url: string): Option<string> {
    var rest := AfterPrefix(url, "postgresql://");
    if rest.Some? then rest else AfterPrefix(url, "postgres://")
  }

  // Authority, path and query.
  function Sections(rest: string): (string, Option<string>, string) {
    var query := SplitFirst(rest, '?');
    var front := if query.Some? then query.value.0 else rest;
    var path := SplitFirst(front, '/');
    (if path.Some? then path.value.0 else front,
     if path.Some? then Some(path.value.1) else None,
     if query.Some? then query.value.1 else "")
  }

  // The last `@` ends the user part.
  function Authority(authority: string): (Option<string>, string) {
    var parts := SplitLast(authority, '@');
    if parts.Some? then (Some(parts.value.0), parts.value.1) else (None, authority)
  }

  function FirstDraft(codec: Codec, authority: string, path: Option<string>): Result<Draft, UrlError> {
    var parts := Authority(authority);
    var user :- UserAndPassword(codec, parts.0);
    if ',' in parts.1 then Err(MultipleHosts)
    else
      var host :- SplitHostPort(codec, parts.1);
      var database :- if path.None? then Ok("") else OkOr(PercentDecode(codec, path.value), Encoding);
      Ok(Draft(host.0, host.1, database, user.0, user.1, false, false, []))
  }

  ghost function ParsedUrl(codec: Codec, url: string): Result<ImportedConnection, UrlError> {
    var rest :- OkOr(AfterScheme(Trim(url)), Scheme);
    var sections := Sections(rest);
    var draft :- FirstDraft(codec, sections.0, sections.1);
    var read :- ApplyPairs(codec, draft, SplitAll(sections.2, '&'));
    Finished(read)
  }

  /* ---- The loop over the parameters ---- */

  lemma ApplyNext(codec: Codec, d: Draft, pairs: seq<string>)
    requires pairs != []
    ensures ApplyPairs(codec, d, pairs) ==
            var next := ApplyPair(codec, d, pairs[0]);
            if next.Err? then Err(next.error) else ApplyPairs(codec, next.value, pairs[1..])
  {
  }

  method ReadParameters(codec: Codec, draft: Draft, pairs: seq<string>) returns (read: Result<Draft, UrlError>)
    ensures read == ApplyPairs(codec, draft, pairs)
  {
    hide ApplyPair;
    var d := draft;
    assert pairs[0..] == pairs;
    for i := 0 to |pairs|
      invariant ApplyPairs(codec, draft, pairs) == ApplyPairs(codec, d, pairs[i..])
    {
      ApplyNext(codec, d, pairs[i..]);
      assert pairs[i..][1..] == pairs[i + 1..];
      var next := ApplyPair(codec, d, pairs[i]);
      if next.Err? {
        return next;
      }
      d := next.value;
    }
    return Ok(d);
  }

  method ParseConnectionUrl(codec: Codec, url: string) returns (connection: Result<ImportedConnection, UrlError>)
    ensures connection == ParsedUrl(codec, url)
  {
    hide AfterScheme, Sections, FirstDraft, ApplyPairs, SplitAll, Trim;
    var rest :- OkOr(AfterScheme(Trim(url)), Scheme);
    var sections := Sections(rest);
    var draft :- FirstDraft(codec, sections.0, sections.1);
    var d :- ReadParameters(codec, draft, SplitAll(sections.2, '&'));
    if d.host != "" && (d.host[0] == '/' || d.host[0] == '@') {
      return Err(UnixSocket);
    }
    var host := if d.host == "" then DEFAULT_HOST else d.host;
    var database := if d.database == "" then d.user else d.database;
    var names := set n | n in d.ignored;
    var ignored := SortNames(names);
    ListedOnce(ignored, Sorted(names));
    return Ok(ImportedConnection(
      DefaultLabel(database, host), host, if d.port.None? then DEFAULT_PORT else d.port.value, database, d.user,
      d.ssl, d.sslDowngraded, if d.password == Some("") then None else d.password, ignored));
  }
}
