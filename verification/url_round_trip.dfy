/** A printed connection URL is read back as the fields it was printed from. */
module UrlRoundTrip {
  import opened Options
  import opened ByteStrings
  import opened Gathering
  import opened Names
  import opened Text
  import opened Numbers
  import opened Percent
  import opened PercentCorrect
  import opened Splitting
  import opened ConnectionUrl
  import opened TextCorrect
  import opened UrlCorrect

  // Without a password the colon is left out; an IPv6 host is written in brackets.
  datatype UrlFields = UrlFields(
    user: string, password: Option<string>, host: string, bracketed: bool, port: nat, database: string, mode: string)

  predicate Printable(f: UrlFields) {
    (f.bracketed ==> ':' in f.host) && 1 <= f.port <= 65535 && f.mode in MODES
  }

  function PrintUser(codec: Codec, f: UrlFields): string {
    if f.password.None? then PercentEncode(codec, false, f.user)
    else PercentEncode(codec, false, f.user) + [':'] + PercentEncode(codec, false, f.password.value)
  }

  function PrintHost(codec: Codec, f: UrlFields): string {
    (if f.bracketed then ['['] + PercentEncode(codec, true, f.host) + [']'] else PercentEncode(codec, false, f.host)) +
    [':'] + Decimal(f.port)
  }

  function PrintAuthority(codec: Codec, f: UrlFields): string { PrintUser(codec, f) + ['@'] + PrintHost(codec, f) }

  const SCHEME := "postgresql://"

  function PrintUrl(codec: Codec, f: UrlFields): string {
    SCHEME + (PrintAuthority(codec, f) + ['/'] + PercentEncode(codec, false, f.database) + ['?'] +
      ("sslmode=" + f.mode))
  }

  /* ---- Splits fall where the printer put them ---- */

  lemma {:induction false} SplitFirstNone(a: string, c: char)
    requires c !in a
    ensures SplitFirst(a, c).None?
  {
    if a != "" {
      SplitFirstNone(a[1..], c);
    }
  }

  predicate Lacks(text: string, c: char) { c !in text }

  lemma SafeLacks(colons: bool, s: string, c: char)
    requires AllSafe(colons, s) && !Safe(colons, c)
    ensures Lacks(s, c)
  {
  }

  lemma DigitsLack(n: nat, c: char)
    requires !IsDigit(c)
    ensures Lacks(Decimal(n), c)
  {
  }

  lemma LacksConcat(a: string, b: string, c: char)
    requires Lacks(a, c) && Lacks(b, c)
    ensures Lacks(a + b, c)
  {
  }

  lemma EncodedLacks(codec: Codec, colons: bool, value: string, c: char)
    requires Lawful(codec) && !Safe(colons, c)
    ensures Lacks(PercentEncode(codec, colons, value), c)
  {
    PercentRoundTrip(codec, colons, value);
    SafeLacks(colons, PercentEncode(codec, colons, value), c);
  }

  lemma UserLacks(codec: Codec, f: UrlFields, c: char)
    requires Lawful(codec) && !Safe(true, c)
    ensures Lacks(PrintUser(codec, f), c)
  {
    EncodedLacks(codec, false, f.user, c);
    if f.password.Some? {
      EncodedLacks(codec, false, f.password.value, c);
    }
  }

  lemma HostLacks(codec: Codec, f: UrlFields, c: char)
    requires Lawful(codec) && !Safe(true, c) && c != '[' && c != ']'
    ensures Lacks(PrintHost(codec, f), c)
  {
    EncodedLacks(codec, f.bracketed, f.host, c);
    DigitsLack(f.port, c);
  }

  /* ---- The parts are read back ---- */

  function Decoded(value: string): Option<string> { if NUL in value then None else Some(value) }

  lemma UserBack(codec: Codec, f: UrlFields)
    requires Lawful(codec)
    ensures UserAndPassword(codec, Some(PrintUser(codec, f))) ==
            if NUL in f.user || (f.password.Some? && NUL in f.password.value) then Err(Encoding)
              else Ok((f.user, f.password))
  {
    hide PercentDecode, PercentEncode, Lawful, SplitFirst;
    var user := PercentEncode(codec, false, f.user);
    PercentRoundTrip(codec, false, f.user);
    EncodedLacks(codec, false, f.user, ':');
    if f.password.None? {
      SplitFirstNone(user, ':');
    } else {
      PercentRoundTrip(codec, false, f.password.value);
      SplitFirstAt(user, ':', PercentEncode(codec, false, f.password.value));
    }
  }

  lemma PortBack(port: nat)
    requires 1 <= port <= 65535
    ensures ParsePort(Decimal(port)) == Some(port)
  {
    DecimalValue(port);
    assert IsDigit(Decimal(port)[0]);
  }

  // A colon in a bracketed host stays one.
  lemma ColonKept(codec: Codec, host: string)
    requires Lawful(codec) && ':' in host
    ensures ':' in PercentEncode(codec, true, host)
  {
    var i: nat :| i < |host| && host[i] == ':';
    var front, back := host[..i], host[i + 1..];
    assert host == front + (":" + back);
    assert IsAscii(":");
    assert codec.encode(host) == codec.encode(front) + (AsciiBytes(":") + codec.encode(back));
    var at := |codec.encode(front)|;
    assert codec.encode(host)[at] == 58;
    GatherMember(codec.encode(host), PrintPart(true), ':');
    assert codec.encode(host)[at] in codec.encode(host);
    assert ':' in PrintPart(true)(58);
  }

  lemma BracketedBack(codec: Codec, f: UrlFields)
    requires Lawful(codec) && Printable(f) && f.bracketed
    ensures SplitHostPort(codec, PrintHost(codec, f)) ==
      if NUL in f.host then Err(Encoding) else Ok((f.host, Some(f.port)))
  {
    hide PercentDecode, PercentEncode, Lawful, SplitFirst, SplitLast, ParsePort;
    var host := PercentEncode(codec, true, f.host);
    var bracketed := host + [']'] + ([':'] + Decimal(f.port));
    assert PrintHost(codec, f)[1..] == bracketed;
    PercentRoundTrip(codec, true, f.host);
    EncodedLacks(codec, true, f.host, ']');
    SplitFirstAt(host, ']', [':'] + Decimal(f.port));
    ColonKept(codec, f.host);
    PortBack(f.port);
    assert ([':'] + Decimal(f.port))[1..] == Decimal(f.port);
  }

  lemma PlainHostBack(codec: Codec, f: UrlFields)
    requires Lawful(codec) && Printable(f) && !f.bracketed
    ensures SplitHostPort(codec, PrintHost(codec, f)) ==
      if NUL in f.host then Err(Encoding) else Ok((f.host, Some(f.port)))
  {
    hide PercentDecode, PercentEncode, Lawful, SplitFirst, SplitLast, ParsePort;
    var host := PercentEncode(codec, false, f.host);
    PercentRoundTrip(codec, false, f.host);
    EncodedLacks(codec, false, f.host, '[');
    assert PrintHost(codec, f)[0] != '[' by {
      assert host != "" ==> host[0] in host;
    }
    DigitsLack(f.port, ':');
    SplitLastAt(host, ':', Decimal(f.port));
    PortBack(f.port);
  }

  lemma HostBack(codec: Codec, f: UrlFields)
    requires Lawful(codec) && Printable(f)
    ensures SplitHostPort(codec, PrintHost(codec, f)) ==
      if NUL in f.host then Err(Encoding) else Ok((f.host, Some(f.port)))
  {
    hide *;
    if f.bracketed {
      BracketedBack(codec, f);
    } else {
      PlainHostBack(codec, f);
    }
  }

  lemma AuthorityBack(codec: Codec, f: UrlFields)
    requires Lawful(codec)
    ensures Authority(PrintAuthority(codec, f)) == (Some(PrintUser(codec, f)), PrintHost(codec, f))
  {
    hide PrintUser, PrintHost, SplitLast;
    HostLacks(codec, f, '@');
    SplitLastAt(PrintUser(codec, f), '@', PrintHost(codec, f));
  }

  predicate HasNul(f: UrlFields) {
    NUL in f.user || (f.password.Some? && NUL in f.password.value) || NUL in f.host || NUL in f.database
  }

  lemma DraftBack(codec: Codec, f: UrlFields)
    requires Lawful(codec) && Printable(f)
    ensures FirstDraft(codec, PrintAuthority(codec, f), Some(PercentEncode(codec, false, f.database))) ==
            if HasNul(f) then Err(Encoding)
            else Ok(Draft(f.host, Some(f.port), f.database, f.user, f.password, false, false, []))
  {
    hide Authority, UserAndPassword, SplitHostPort, PercentDecode, PercentEncode, PrintUser, PrintHost, PrintAuthority,
      Lawful, Printable;
    AuthorityBack(codec, f);
    UserBack(codec, f);
    HostLacks(codec, f, ',');
    HostBack(codec, f);
    PercentRoundTrip(codec, false, f.database);
  }

  lemma SectionsBack(codec: Codec, f: UrlFields)
    requires Lawful(codec)
    ensures Sections(PrintAuthority(codec, f) + ['/'] + PercentEncode(codec, false, f.database) + ['?'] +
      ("sslmode=" + f.mode)) ==
            (PrintAuthority(codec, f), Some(PercentEncode(codec, false, f.database)), "sslmode=" + f.mode)
  {
    hide PrintUser, PrintHost, PercentEncode, SplitFirst;
    var authority, database := PrintAuthority(codec, f), PercentEncode(codec, false, f.database);
    UserLacks(codec, f, '/');
    HostLacks(codec, f, '/');
    UserLacks(codec, f, '?');
    HostLacks(codec, f, '?');
    EncodedLacks(codec, false, f.database, '?');
    SplitFirstAt(authority + ['/'] + database, '?', "sslmode=" + f.mode);
    SplitFirstAt(authority, '/', database);
  }

  predicate PlainAscii(s: string) {
    IsAscii(s) && '&' !in s && '=' !in s && '%' !in s && NUL !in s && s != "" && !IsWhitespace(s[|s| - 1])
  }

  lemma ModePlain(mode: string)
    requires mode in MODES
    ensures PlainAscii(mode)
  {
    hide PlainAscii;
    ModesOff();
    ModesOn();
  }

  lemma ModesOff()
    ensures PlainAscii("disable") && PlainAscii("allow") && PlainAscii("prefer")
  {
  }

  lemma ModesOn()
    ensures PlainAscii("require") && PlainAscii("verify-ca") && PlainAscii("verify-full")
  {
  }

  lemma KeyPlain()
    ensures PlainAscii("sslmode")
  {
  }

  lemma PairBack(codec: Codec, d: Draft, mode: string)
    requires Lawful(codec) && mode in MODES
    ensures ApplyPair(codec, d, "sslmode=" + mode) ==
            Ok(d.(ssl := Encrypted(Some(mode)), sslDowngraded := Verified(Some(mode))))
  {
    hide PercentDecode, SplitFirst, SslFromMode, Encrypted, Verified;
    ModeExactly(mode);
    ModePlain(mode);
    KeyPlain();
    SplitFirstAt("sslmode", '=', mode);
    assert "sslmode=" + mode == "sslmode" + ['='] + mode;
    PlainDecodes(codec, "sslmode");
    PlainDecodes(codec, mode);
  }

  lemma QueryBack(codec: Codec, d: Draft, mode: string)
    requires Lawful(codec) && mode in MODES
    ensures ApplyPairs(codec, d, SplitAll("sslmode=" + mode, '&')) ==
            Ok(d.(ssl := Encrypted(Some(mode)), sslDowngraded := Verified(Some(mode))))
  {
    hide SplitFirst, ApplyPair, Encrypted, Verified;
    ModePlain(mode);
    SplitFirstNone("sslmode=" + mode, '&');
    PairBack(codec, d, mode);
    var pairs := SplitAll("sslmode=" + mode, '&');
    assert pairs == ["sslmode=" + mode];
    ApplyNext(codec, d, pairs);
    assert pairs[1..] == [];
  }

  lemma SchemeBack(rest: string)
    requires rest != "" && !IsWhitespace(rest[|rest| - 1])
    ensures AfterScheme(Trim(SCHEME + rest)) == Some(rest)
  {
    var url := SCHEME + rest;
    assert url[0] == 'p' && url[|url| - 1] == rest[|rest| - 1];
    assert url[..|SCHEME|] == SCHEME && url[|SCHEME|..] == rest;
  }

  // The connection the fields describe, with the defaults for what was left empty.
  function Wanted(f: UrlFields): ImportedConnection {
    var host := if f.host == "" then "localhost" else f.host;
    var database := if f.database == "" then f.user else f.database;
    ImportedConnection(
      if database == "" then host else database + "@" + host, host, f.port, database, f.user,
      Encrypted(Some(f.mode)), Verified(Some(f.mode)), if f.password == Some("") then None else f.password, [])
  }

  // Every printed URL is read back as its fields; a NUL character in any of them or a host that names a socket is
  // refused.
  lemma UrlRoundTripped(codec: Codec, f: UrlFields)
    requires Lawful(codec) && Printable(f)
    ensures ParsedUrl(codec, PrintUrl(codec, f)) ==
            if HasNul(f) then Err(Encoding) else if SocketHost(f.host) then Err(UnixSocket) else Ok(Wanted(f))
  {
    hide AfterScheme, Sections, FirstDraft, ApplyPairs, PrintAuthority, PercentEncode, SplitAll, Finished, Lawful,
      HasNul, Trim, Wanted, SocketHost, Encrypted, Verified;
    var authority, database := PrintAuthority(codec, f), PercentEncode(codec, false, f.database);
    var rest := authority + ['/'] + database + ['?'] + ("sslmode=" + f.mode);
    ModePlain(f.mode);
    assert rest[|rest| - 1] == f.mode[|f.mode| - 1];
    SchemeBack(rest);
    SectionsBack(codec, f);
    DraftBack(codec, f);
    if !HasNul(f) {
      QueryBack(codec, Draft(f.host, Some(f.port), f.database, f.user, f.password, false, false, []), f.mode);
      WantedBack(f);
    }
  }

  lemma WantedBack(f: UrlFields)
    ensures
      Finished(Draft(f.host, Some(f.port), f.database, f.user, f.password, Encrypted(Some(f.mode)),
                     Verified(Some(f.mode)), [])) ==
      if SocketHost(f.host) then Err(UnixSocket) else Ok(Wanted(f))
  {
    hide Encrypted, Verified, Ignored;
    NothingIgnored();
  }

  // With nothing left empty, exactly the fields that were printed come back.
  lemma UrlFieldsBack(codec: Codec, f: UrlFields)
    requires Lawful(codec) && Printable(f)
    requires f.host != "" && f.database != "" && f.password != Some("")
    ensures
      var parsed := ParsedUrl(codec, PrintUrl(codec, f));
      parsed.Ok? && parsed.value.host == f.host && parsed.value.port == f.port && parsed.value.database == f.database &&
      parsed.value.user == f.user && parsed.value.password == f.password && parsed.value.ignored == [] &&
      (parsed.value.ssl <==> f.mode in {"require", "verify-ca", "verify-full"}) &&
      (parsed.value.sslDowngraded <==> f.mode in {"verify-ca", "verify-full"}) &&
      parsed.value.title == f.database + "@" + f.host <==>
      !HasNul(f) && f.host[0] != '/' && f.host[0] != '@'
  {
    hide PrintUrl, ParsedUrl, HasNul;
    UrlRoundTripped(codec, f);
  }

  lemma NothingIgnored()
    ensures Ignored([]) == []
  {
    ListedOnce(Ignored([]), []);
  }

  /* ---- The same fields as parameters ---- */

  function Encoded(codec: Codec, value: string): string { PercentEncode(codec, false, value) }

  function FieldPairs(codec: Codec, f: UrlFields): seq<Pair> {
    [Pair("host", Encoded(codec, f.host)), Pair("port", Decimal(f.port)), Pair("dbname", Encoded(codec, f.database)),
     Pair("user", Encoded(codec, f.user))] +
    (if f.password.None? then [] else [Pair("password", Encoded(codec, f.password.value))]) +
    [Pair("sslmode", f.mode)]
  }

  // `postgresql://?host=…&port=…`
  function FieldParts(codec: Codec, f: UrlFields): Parts {
    Parts(None, PlainHost("", None), None, Some(FieldPairs(codec, f)))
  }

  function FieldParams(f: UrlFields): Params {
    [("host", f.host), ("port", Decimal(f.port)), ("dbname", f.database), ("user", f.user)] +
    (if f.password.None? then [] else [("password", f.password.value)]) + [("sslmode", f.mode)]
  }

  lemma EncodedStands(codec: Codec, value: string, other: string)
    requires Lawful(codec)
    ensures StandsFor(codec, Encoded(codec, value), other) <==> other == value && NUL !in value
  {
    hide PercentDecode, PercentEncode, Lawful, StandsFor;
    PercentRoundTrip(codec, false, value);
    PercentExactly(codec, Encoded(codec, value), other);
  }

  lemma PlainStands(codec: Codec, value: string, other: string)
    requires Lawful(codec) && IsAscii(value) && NUL !in value && '%' !in value
    ensures StandsFor(codec, value, other) <==> other == value
  {
    hide PercentDecode, Lawful, StandsFor;
    PlainDecodes(codec, value);
    PercentExactly(codec, value, other);
  }

  lemma DecimalPlain(n: nat)
    ensures IsAscii(Decimal(n)) && NUL !in Decimal(n) && '%' !in Decimal(n) && '&' !in Decimal(n)
  {
    hide Decimal;
    assert forall i :: 0 <= i < |Decimal(n)| ==> IsDigit(Decimal(n)[i]);
  }

  // Every pair stands for one key and one value, if that has no NUL.
  ghost predicate StandFor(codec: Codec, pairs: seq<Pair>, params: Params) {
    |params| == |pairs| &&
    forall i :: 0 <= i < |pairs| ==> StandsOnly(codec, pairs[i], params[i].0, params[i].1)
  }

  ghost predicate StandsOnly(codec: Codec, pair: Pair, key: string, value: string) {
    pair.Pair? && (forall k :: StandsFor(codec, pair.key, k) <==> k == key) &&
    forall v :: StandsFor(codec, pair.value, v) <==> v == value && NUL !in value
  }

  lemma {:induction false} OnlyParams(codec: Codec, pairs: seq<Pair>, params: Params, other: Params)
    requires StandFor(codec, pairs, params)
    ensures ParamsOf(codec, pairs, other) <==>
            other == params && forall i :: 0 <= i < |params| ==> NUL !in params[i].1
  {
    hide StandsFor;
    if pairs != [] {
      var n := |pairs| - 1;
      assert StandsOnly(codec, pairs[n], params[n].0, params[n].1);
      if other != [] {
        OnlyParams(codec, pairs[..n], params[..n], other[..|other| - 1]);
        assert other == other[..|other| - 1] + [other[|other| - 1]] && params == params[..n] + [params[n]];
      }
    }
  }

  lemma EncodedOnly(codec: Codec, key: string, value: string)
    requires Lawful(codec) && IsAscii(key) && NUL !in key && '%' !in key
    ensures StandsOnly(codec, Pair(key, Encoded(codec, value)), key, value)
  {
    hide StandsFor, Encoded, Lawful;
    forall v
      ensures StandsFor(codec, Encoded(codec, value), v) <==> v == value && NUL !in value
      ensures StandsFor(codec, key, v) <==> v == key
    {
      EncodedStands(codec, value, v);
      PlainStands(codec, key, v);
    }
  }

  lemma PlainOnly(codec: Codec, key: string, value: string)
    requires Lawful(codec) && IsAscii(key) && NUL !in key && '%' !in key
    requires IsAscii(value) && NUL !in value && '%' !in value
    ensures StandsOnly(codec, Pair(key, value), key, value)
  {
    hide StandsFor, Lawful;
    forall v
      ensures StandsFor(codec, value, v) <==> v == value
      ensures StandsFor(codec, key, v) <==> v == key
    {
      PlainStands(codec, value, v);
      PlainStands(codec, key, v);
    }
  }

  lemma KeysPlain(key: string)
    requires key in KNOWN
    ensures IsAscii(key) && NUL !in key && '%' !in key && '=' !in key && '&' !in key
  {
  }

  lemma FieldsStand(codec: Codec, f: UrlFields)
    requires Lawful(codec) && Printable(f)
    ensures StandFor(codec, FieldPairs(codec, f), FieldParams(f))
  {
    hide StandsOnly, Encoded, Lawful, Decimal;
    forall key | key in KNOWN
      ensures IsAscii(key) && NUL !in key && '%' !in key
    {
      KeysPlain(key);
    }
    EncodedOnly(codec, "host", f.host);
    DecimalPlain(f.port);
    PlainOnly(codec, "port", Decimal(f.port));
    EncodedOnly(codec, "dbname", f.database);
    EncodedOnly(codec, "user", f.user);
    if f.password.Some? {
      EncodedOnly(codec, "password", f.password.value);
    }
    ModePlain(f.mode);
    PlainOnly(codec, "sslmode", f.mode);
  }

  lemma FieldsFree(f: UrlFields)
    requires Printable(f)
    ensures (forall i :: 0 <= i < |FieldParams(f)| ==> NUL !in FieldParams(f)[i].1) <==> !HasNul(f)
    ensures AllOk(FieldParams(f)) <==> ',' !in f.host
  {
    hide Decimal, PortOf;
    var params := FieldParams(f);
    DecimalPlain(f.port);
    ModePlain(f.mode);
    PortBack(f.port);
    PortExactly(Decimal(f.port), f.port);
    assert params[0].1 == f.host && params[2].1 == f.database && params[3].1 == f.user;
    assert f.password.Some? ==> params[4].1 == f.password.value;
  }

  const NOTHING := Base("", None, "", None, "")

  lemma FieldsLatest(f: UrlFields)
    ensures var params := FieldParams(f);
      Latest(params, "port") == Some(Decimal(f.port)) && Latest(params, "dbname") == Some(f.database) &&
      Latest(params, "user") == Some(f.user) && Latest(params, "password") == f.password &&
      Latest(params, "sslmode") == Some(f.mode) && forall key :: key !in KNOWN ==> Latest(params, key).None?
  {
    hide Latest, Decimal;
    var a: Params := [("host", f.host)];
    var b := a + [("port", Decimal(f.port))];
    var c := b + [("dbname", f.database)];
    var d := c + [("user", f.user)];
    var e := if f.password.None? then d else d + [("password", f.password.value)];
    assert FieldParams(f) == e + [("sslmode", f.mode)];
    forall key: string
      ensures Latest(FieldParams(f), key) ==
        if key == "sslmode" then Some(f.mode) else if key == "password" && f.password.Some? then f.password
        else if key == "user" then Some(f.user) else if key == "dbname" then Some(f.database)
        else if key == "port" then Some(Decimal(f.port)) else if key == "host" then Some(f.host) else None
    {
      LatestNone(key);
      LatestNext([], "host", f.host, key);
      LatestNext(a, "port", Decimal(f.port), key);
      LatestNext(b, "dbname", f.database, key);
      LatestNext(c, "user", f.user, key);
      if f.password.Some? {
        LatestNext(d, "password", f.password.value, key);
      }
      LatestNext(e, "sslmode", f.mode, key);
      assert [] + [("host", f.host)] == a;
    }
  }

  lemma LatestNone(key: string)
    ensures Latest([], key).None?
  {
  }

  lemma FieldsHost(f: UrlFields)
    ensures HostIs(FieldParams(f), "", f.host)
  {
    var params := FieldParams(f);
    assert LastHost(params, 0) && HostAt(params, "", 0) == f.host;
    assert forall j :: !FirstAddress(params, 0, j);
  }

  function FieldDraft(f: UrlFields): Draft {
    Draft(f.host, Some(f.port), f.database, f.user, f.password, Encrypted(Some(f.mode)), Verified(Some(f.mode)), [])
  }

  lemma FieldsDraft(f: UrlFields)
    requires Printable(f)
    ensures DraftIs(NOTHING, FieldParams(f), FieldDraft(f))
  {
    hide HostIs, Latest, Decimal, PortOf, Encrypted, Verified;
    FieldsHost(f);
    FieldsLatest(f);
    PortBack(f.port);
    PortExactly(Decimal(f.port), f.port);
  }

  lemma FieldsComposed(codec: Codec, f: UrlFields)
    requires Lawful(codec) && Printable(f)
    ensures Composed(SCHEME + PrintParts(FieldParts(codec, f)), FieldParts(codec, f))
  {
    hide Encoded, Lawful, Decimal, Rejoined, PrintPairs, Trims;
    var p := FieldParts(codec, f);
    var rest := PrintParts(p);
    FieldPairsOk(codec, f);
    LongIsLower();
    FieldsEnd(codec, f);
    WholeTrims(SCHEME + rest);
    assert IsScheme(SCHEME) && PrintFront(p) == "";
  }

  lemma WholeTrims(url: string)
    requires StartsTight(url) && EndsTight(url)
    ensures Trims(url, url)
  {
    assert Around(url, "", url, "");
  }

  lemma FieldPairsOk(codec: Codec, f: UrlFields)
    requires Lawful(codec) && Printable(f)
    ensures forall i :: 0 <= i < |FieldPairs(codec, f)| ==> PairOk(FieldPairs(codec, f)[i])
  {
    hide PercentEncode, Lawful, Decimal;
    EncodedLacks(codec, false, f.host, '&');
    EncodedLacks(codec, false, f.database, '&');
    EncodedLacks(codec, false, f.user, '&');
    if f.password.Some? {
      EncodedLacks(codec, false, f.password.value, '&');
    }
    DecimalPlain(f.port);
    ModePlain(f.mode);
    forall key | key in KNOWN
      ensures '=' !in key && '&' !in key
    {
      KeysPlain(key);
    }
  }

  lemma {:induction false} RejoinedEnd(parts: seq<string>, c: char)
    requires parts != [] && parts[|parts| - 1] != ""
    ensures var all, last := Rejoined(parts, c), parts[|parts| - 1];
      all != "" && all[|all| - 1] == last[|last| - 1]
  {
    if |parts| > 1 {
      RejoinedEnd(parts[1..], c);
    }
  }

  lemma FieldsEnd(codec: Codec, f: UrlFields)
    requires Printable(f)
    ensures var url := SCHEME + PrintParts(FieldParts(codec, f)); StartsTight(url) && EndsTight(url)
  {
    hide Encoded, Decimal, Rejoined;
    var pairs := FieldPairs(codec, f);
    var url := SCHEME + PrintParts(FieldParts(codec, f));
    ModePlain(f.mode);
    assert pairs[|pairs| - 1] == Pair("sslmode", f.mode);
    var texts := PrintPairs(pairs);
    assert texts[|texts| - 1] == "sslmode" + ['='] + f.mode;
    RejoinedEnd(texts, '&');
    assert url[0] == 'p' && url[|url| - 1] == f.mode[|f.mode| - 1];
    SpaceIs('p');
    SpaceIs(f.mode[|f.mode| - 1]);
  }

  // A URL that carries the fields as parameters names the same connection, unless the host is a list.
  lemma ParameterUrlBack(codec: Codec, f: UrlFields, c: ImportedConnection)
    requires Lawful(codec) && Printable(f)
    ensures ParsedUrl(codec, SCHEME + PrintParts(FieldParts(codec, f))) == Ok(c) <==>
            !HasNul(f) && ',' !in f.host && !SocketHost(f.host) && c == Wanted(f)
  {
    hide ParsedUrl, PrintParts, FieldPairs, FieldParams, StandFor, ParamsOf, AllOk, Describes, DraftIs, Finished,
      HasNul, SocketHost, Wanted, Lawful, Printable;
    var p, params := FieldParts(codec, f), FieldParams(f);
    FieldsComposed(codec, f);
    UrlExactly(codec, SCHEME + PrintParts(p), p, c);
    FieldsStand(codec, f);
    FieldsFree(f);
    FieldsDraft(f);
    FinishedExactly(NOTHING, params, FieldDraft(f), c);
    WantedBack(f);
    OnlyParams(codec, FieldPairs(codec, f), params, params);
    EmptyBase(codec, p);
    if UrlMeans(codec, p, c) {
      var b, others :| BaseMeans(codec, p, b) && ParamsOf(codec, PairsIn(p), others) && AllOk(others) &&
                       Describes(b, others, c);
      OnlyParams(codec, FieldPairs(codec, f), params, others);
      BaseEmpty(codec, p, b);
    }
  }

  lemma EmptyBase(codec: Codec, p: Parts)
    requires Lawful(codec) && p.user.None? && p.host == PlainHost("", None) && p.path.None?
    ensures BaseMeans(codec, p, NOTHING)
  {
    hide StandsFor;
    PlainStands(codec, "", "");
  }

  lemma BaseEmpty(codec: Codec, p: Parts, b: Base)
    requires Lawful(codec) && p.user.None? && p.host == PlainHost("", None) && p.path.None?
    requires BaseMeans(codec, p, b)
    ensures b == NOTHING
  {
    hide StandsFor;
    PlainStands(codec, "", b.host);
  }
}
