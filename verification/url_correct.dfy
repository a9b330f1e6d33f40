/** Percent-decoding said byte by byte, without the decoder. */
module PercentCorrect {
  import opened Options
  import opened ByteStrings
  import opened Percent

  // How one byte may be written: as itself, or as a percent sign and two characters.
  datatype Item = Plain(b: byte) | Hex(b: byte, first: byte, second: byte)

  // A digit in ASCII; letters in either case.
  predicate Spells(c: byte, digit: int) {
    if digit < 10 then c as int == 48 + digit else c as int == 65 + (digit - 10) || c as int == 97 + (digit - 10)
  }

  // A plus sign may stand for the first digit of a number below 16.
  predicate ItemOk(item: Item) {
    match item
    case Plain(b) => b != PERCENT
    case Hex(b, first, second) =>
      Spells(second, b as int % 16) && (Spells(first, b as int / 16) || (first == 43 && b < 16))
  }

  predicate ItemsOk(items: seq<Item>) { forall i :: 0 <= i < |items| ==> ItemOk(items[i]) }

  function Values(items: seq<Item>): Bytes { seq(|items|, i requires 0 <= i < |items| => items[i].b) }

  function Spelled(items: seq<Item>): Bytes {
    if items == [] then []
    else
      (match items[0]
       case Plain(b) => [b]
       case Hex(_, first, second) => [PERCENT, first, second]) + Spelled(items[1..])
  }

  lemma HexExactly(first: byte, second: byte, b: byte)
    ensures HexPair(first, second) == Some(b) <==> ItemOk(Hex(b, first, second))
  {
    if IsHex(first) && IsHex(second) {
      var n := HexValue(first) * 16 + HexValue(second);
      assert n / 16 == HexValue(first) && n % 16 == HexValue(second);
      OneDigit(first, b as int / 16);
    }
    OneDigit(second, b as int % 16);
  }

  lemma OneDigit(c: byte, digit: int)
    requires 0 <= digit < 16
    ensures Spells(c, digit) <==> IsHex(c) && HexValue(c) == digit
  {
  }

  lemma {:induction false} SpelledDecodes(items: seq<Item>)
    requires ItemsOk(items)
    ensures DecodeBytes(Spelled(items)) == Some(Values(items))
  {
    if items != [] {
      var rest := Spelled(items[1..]);
      SpelledDecodes(items[1..]);
      assert Values(items) == [items[0].b] + Values(items[1..]);
      match items[0]
      case Plain(b) =>
        assert ([b] + rest)[1..] == rest;
      case Hex(b, first, second) =>
        HexExactly(first, second, b);
        assert ([PERCENT, first, second] + rest)[3..] == rest;
    }
  }

  lemma {:induction false} DecodedSpells(bytes: Bytes) returns (items: seq<Item>)
    requires DecodeBytes(bytes).Some?
    ensures ItemsOk(items) && Spelled(items) == bytes && DecodeBytes(bytes) == Some(Values(items))
    decreases |bytes|
  {
    if bytes == [] {
      items := [];
    } else if bytes[0] == PERCENT {
      var more := DecodedSpells(bytes[3..]);
      var b := HexPair(bytes[1], bytes[2]).value;
      HexExactly(bytes[1], bytes[2], b);
      items := [Hex(b, bytes[1], bytes[2])] + more;
      assert items[1..] == more && bytes == [PERCENT, bytes[1], bytes[2]] + bytes[3..];
    } else {
      var more := DecodedSpells(bytes[1..]);
      items := [Plain(bytes[0])] + more;
      assert items[1..] == more && bytes == [bytes[0]] + bytes[1..];
    }
    SpelledDecodes(items);
  }

  // The bytes are read as these ones exactly if they are a way to write them.
  lemma BytesExactly(bytes: Bytes, values: Bytes)
    ensures DecodeBytes(bytes) == Some(values) <==>
            exists items :: ItemsOk(items) && Spelled(items) == bytes && Values(items) == values
  {
    if DecodeBytes(bytes) == Some(values) {
      var items := DecodedSpells(bytes);
    }
    if items :| ItemsOk(items) && Spelled(items) == bytes && Values(items) == values {
      SpelledDecodes(items);
    }
  }

  // The text a percent-encoded text stands for: its bytes are decoded, they are UTF-8, and hold no NUL.
  ghost predicate StandsFor(codec: Codec, raw: string, value: string) {
    NUL !in value &&
    exists items :: ItemsOk(items) && Spelled(items) == codec.encode(raw) && codec.decode(Values(items)) == Some(value)
  }

  lemma PercentExactly(codec: Codec, raw: string, value: string)
    ensures PercentDecode(codec, raw) == Some(value) <==> StandsFor(codec, raw, value)
  {
    var bytes := codec.encode(raw);
    var decoded := DecodeBytes(bytes);
    if decoded.Some? {
      BytesExactly(bytes, decoded.value);
    }
    if items :| ItemsOk(items) && Spelled(items) == bytes && codec.decode(Values(items)) == Some(value) {
      SpelledDecodes(items);
    }
  }
}

/** What a connection URL means, said over its parts. */
module UrlCorrect {
  import opened Options
  import opened Names
  import opened Text
  import opened TextCorrect
  import opened Numbers
  import opened Splitting
  import opened Percent
  import opened PercentCorrect
  import opened ConnectionUrl

  /* ---- The parts of a URL ---- */

  datatype UserPart = UserPart(user: string, password: Option<string>)

  // `after`: what follows the closing bracket.
  datatype HostPart =
    | PlainHost(host: string, port: Option<string>) | Bracketed(host: string, after: string) | Unclosed(text: string)

  datatype Pair = NoPair | Pair(key: string, value: string) | Unpaired(text: string)

  datatype Parts = Parts(user: Option<UserPart>, host: HostPart, path: Option<string>, query: Option<seq<Pair>>)

  function PrintUserPart(u: UserPart): string {
    if u.password.None? then u.user else u.user + [':'] + u.password.value
  }

  function PrintHostPart(h: HostPart): string {
    match h
    case PlainHost(host, port) => if port.None? then host else host + [':'] + port.value
    case Bracketed(host, after) => ['['] + host + [']'] + after
    case Unclosed(text) => ['['] + text
  }

  function PrintAuthorityPart(p: Parts): string {
    if p.user.None? then PrintHostPart(p.host) else PrintUserPart(p.user.value) + ['@'] + PrintHostPart(p.host)
  }

  function PrintPair(pair: Pair): string {
    match pair
    case NoPair => ""
    case Pair(key, value) => key + ['='] + value
    case Unpaired(text) => text
  }

  function PrintPairs(pairs: seq<Pair>): seq<string> {
    seq(|pairs|, i requires 0 <= i < |pairs| => PrintPair(pairs[i]))
  }

  function PairsIn(p: Parts): seq<Pair> { if p.query.None? then [NoPair] else p.query.value }

  function PrintFront(p: Parts): string {
    PrintAuthorityPart(p) + if p.path.None? then "" else ['/'] + p.path.value
  }

  function PrintParts(p: Parts): string
    requires p.query.Some? ==> p.query.value != []
  {
    PrintFront(p) + if p.query.None? then "" else ['?'] + Rejoined(PrintPairs(p.query.value), '&')
  }

  predicate PairOk(pair: Pair) {
    match pair
    case NoPair => true
    case Pair(key, value) => '=' !in key && '&' !in key && '&' !in value
    case Unpaired(text) => text != "" && '=' !in text && '&' !in text
  }

  predicate HostOk(h: HostPart) {
    match h
    case PlainHost(host, port) =>
      (PrintHostPart(h) == "" || PrintHostPart(h)[0] != '[') && if port.None? then ':' !in host else ':' !in port.value
    case Bracketed(host, _) => ']' !in host
    case Unclosed(text) => ']' !in text
  }

  // The separators are where they separate.
  predicate PartsOk(p: Parts) {
    HostOk(p.host) && '@' !in PrintHostPart(p.host) && '/' !in PrintAuthorityPart(p) && '?' !in PrintFront(p) &&
    (p.user.Some? ==> ':' !in p.user.value.user) &&
    (p.query.Some? ==> p.query.value != [] && forall i :: 0 <= i < |p.query.value| ==> PairOk(p.query.value[i]))
  }

  predicate IsScheme(scheme: string) { LowersTo(scheme, "postgresql://") || LowersTo(scheme, "postgres://") }

  // The URL is these parts after its scheme, with whitespace around it.
  ghost predicate Composed(url: string, p: Parts) {
    PartsOk(p) && exists scheme :: IsScheme(scheme) && Trims(url, scheme + PrintParts(p))
  }

  /* ---- Ports ---- */

  // A number from 1 to 65535, perhaps with zeros and a plus sign before it.
  ghost predicate PortOf(text: string, n: nat) {
    1 <= n <= 65535 && exists sign, zeros :: PortWritten(text, sign, zeros, n)
  }

  lemma {:induction false} ZerosBefore(zeros: string, digits: string)
    requires Only(zeros, '0') && AllDigits(digits)
    ensures AllDigits(zeros + digits) && DigitsValue(zeros + digits) == DigitsValue(digits)
  {
    if digits == "" {
      assert zeros + digits == zeros;
      if zeros != "" {
        ZerosBefore(zeros[..|zeros| - 1], "");
        assert zeros[..|zeros| - 1] + "" == zeros[..|zeros| - 1];
      }
    } else {
      var n := |digits| - 1;
      ZerosBefore(zeros, digits[..n]);
      assert (zeros + digits)[..|zeros + digits| - 1] == zeros + digits[..n];
    }
  }

  lemma {:induction false} WithoutZeros(digits: string) returns (zeros: string)
    requires AllDigits(digits) && DigitsValue(digits) > 0
    ensures Only(zeros, '0') && digits == zeros + Decimal(DigitsValue(digits))
  {
    var n := |digits| - 1;
    var last := digits[n];
    if DigitsValue(digits[..n]) == 0 {
      AllZeros(digits[..n]);
      zeros := digits[..n];
      assert Decimal(DigitsValue(digits)) == [last];
    } else {
      zeros := WithoutZeros(digits[..n]);
      assert Decimal(DigitsValue(digits)) == Decimal(DigitsValue(digits[..n])) + [last];
    }
    assert digits == digits[..n] + [last];
  }

  lemma {:induction false} AllZeros(digits: string)
    requires AllDigits(digits) && DigitsValue(digits) == 0
    ensures Only(digits, '0')
  {
    if digits != "" {
      AllZeros(digits[..|digits| - 1]);
    }
  }

  predicate PortWritten(text: string, sign: string, zeros: string, n: nat) {
    text == sign + zeros + Decimal(n) && (sign == "" || sign == "+") && Only(zeros, '0')
  }

  lemma PortParts(text: string, n: nat) returns (sign: string, digits: string)
    requires ParsePort(text) == Some(n)
    ensures text == sign + digits && (sign == "" || sign == "+") && 1 <= n <= 65535
    ensures AllDigits(digits) && DigitsValue(digits) == n
  {
    hide DigitsValue;
    digits := if text != "" && text[0] == '+' then text[1..] else text;
    sign := if text != "" && text[0] == '+' then "+" else "";
  }

  lemma PortRead(text: string, n: nat)
    requires ParsePort(text) == Some(n)
    ensures PortOf(text, n)
  {
    hide ParsePort, DigitsValue, Decimal;
    var sign, digits := PortParts(text, n);
    var zeros := WithoutZeros(digits);
    assert text == sign + zeros + Decimal(n);
    assert PortWritten(text, sign, zeros, n);
  }

  lemma PortAccepted(text: string, n: nat, sign: string, zeros: string)
    requires 1 <= n <= 65535 && PortWritten(text, sign, zeros, n)
    ensures ParsePort(text) == Some(n)
  {
    var digits := zeros + Decimal(n);
    ZerosBefore(zeros, Decimal(n));
    DecimalValue(n);
    hide Decimal, DigitsValue;
    assert text == sign + digits && IsDigit(digits[0]);
    assert sign == "+" ==> text[1..] == digits;
    assert sign == "" ==> text == digits;
  }

  lemma PortExactly(text: string, n: nat)
    ensures ParsePort(text) == Some(n) <==> PortOf(text, n)
  {
    hide ParsePort, Decimal;
    if ParsePort(text) == Some(n) {
      PortRead(text, n);
    }
    if PortOf(text, n) {
      var sign, zeros :| PortWritten(text, sign, zeros, n);
      PortAccepted(text, n, sign, zeros);
    }
  }

  // There is no other such number.
  lemma PortNone(text: string)
    ensures ParsePort(text).None? <==> forall n: nat :: !PortOf(text, n)
  {
    if ParsePort(text).Some? {
      PortExactly(text, ParsePort(text).value);
    }
    if n: nat :| PortOf(text, n) {
      PortExactly(text, n);
    }
  }

  /* ---- What the parts before the query mean ---- */

  datatype Base = Base(user: string, password: Option<string>, host: string, port: Option<nat>, database: string)

  // A text that is there stands for a value.
  ghost predicate OptionStandsFor(codec: Codec, raw: Option<string>, value: Option<string>) {
    if raw.None? then value.None? else value.Some? && StandsFor(codec, raw.value, value.value)
  }

  ghost predicate UserMeans(codec: Codec, u: Option<UserPart>, user: string, password: Option<string>) {
    if u.None? then user == "" && password.None?
    else StandsFor(codec, u.value.user, user) && OptionStandsFor(codec, u.value.password, password)
  }

  ghost predicate PortMeans(raw: Option<string>, port: Option<nat>) {
    if raw.None? then port.None? else port.Some? && PortOf(raw.value, port.value)
  }

  // An empty port is none; an address in brackets has a colon, and a port only after one.
  ghost predicate HostMeans(codec: Codec, h: HostPart, host: string, port: Option<nat>) {
    match h
    case PlainHost(raw, given) =>
      StandsFor(codec, raw, host) && PortMeans(if given == Some("") then None else given, port)
    case Bracketed(raw, after) =>
      ':' in raw && StandsFor(codec, raw, host) && (after != "" ==> after[0] == ':') &&
      PortMeans(if after == "" then None else Some(after[1..]), port)
    case Unclosed(_) => false
  }

  ghost predicate BaseMeans(codec: Codec, p: Parts, b: Base) {
    UserMeans(codec, p.user, b.user, b.password) && ',' !in PrintHostPart(p.host) &&
    HostMeans(codec, p.host, b.host, b.port) &&
    if p.path.None? then b.database == "" else StandsFor(codec, p.path.value, b.database)
  }

  lemma DecodeMeans(codec: Codec, raw: string)
    ensures var decoded := PercentDecode(codec, raw);
      (decoded.Some? ==> StandsFor(codec, raw, decoded.value)) &&
      forall value :: StandsFor(codec, raw, value) ==> decoded == Some(value)
  {
    var decoded := PercentDecode(codec, raw);
    if decoded.Some? {
      PercentExactly(codec, raw, decoded.value);
    }
    forall value | StandsFor(codec, raw, value)
      ensures decoded == Some(value)
    {
      PercentExactly(codec, raw, value);
    }
  }

  lemma UserExactly(codec: Codec, u: Option<UserPart>, user: string, password: Option<string>)
    requires u.Some? ==> ':' !in u.value.user
    ensures UserAndPassword(codec, if u.None? then None else Some(PrintUserPart(u.value))) == Ok((user, password)) <==>
            UserMeans(codec, u, user, password)
  {
    hide PercentDecode, StandsFor, SplitFirst;
    if u.Some? {
      DecodeMeans(codec, u.value.user);
      if u.value.password.None? {
        SplitFirstExactly(u.value.user, ':');
      } else {
        DecodeMeans(codec, u.value.password.value);
        SplitFirstAt(u.value.user, ':', u.value.password.value);
      }
    }
  }

  lemma PlainExactly(codec: Codec, raw: string, given: Option<string>, host: string, port: Option<nat>)
    requires HostOk(PlainHost(raw, given))
    ensures SplitHostPort(codec, PrintHostPart(PlainHost(raw, given))) == Ok((host, port)) <==>
            HostMeans(codec, PlainHost(raw, given), host, port)
  {
    hide PercentDecode, StandsFor, SplitLast, ParsePort, PortOf;
    DecodeMeans(codec, raw);
    if given.None? {
      SplitLastParts(raw, ':');
    } else {
      SplitLastAt(raw, ':', given.value);
      PortNone(given.value);
      if port.Some? {
        PortExactly(given.value, port.value);
      }
      NoEmptyPort();
    }
  }

  lemma NoEmptyPort()
    ensures ParsePort("").None?
  {
  }

  lemma BracketedExactly(codec: Codec, raw: string, after: string, host: string, port: Option<nat>)
    requires ']' !in raw
    ensures SplitHostPort(codec, PrintHostPart(Bracketed(raw, after))) == Ok((host, port)) <==>
            HostMeans(codec, Bracketed(raw, after), host, port)
  {
    hide PercentDecode, StandsFor, SplitFirst, ParsePort, PortOf;
    DecodeMeans(codec, raw);
    var text := PrintHostPart(Bracketed(raw, after));
    assert text[1..] == raw + [']'] + after;
    SplitFirstAt(raw, ']', after);
    if after != "" {
      PortNone(after[1..]);
      if port.Some? {
        PortExactly(after[1..], port.value);
      }
    }
  }

  lemma HostExactly(codec: Codec, h: HostPart, host: string, port: Option<nat>)
    requires HostOk(h)
    ensures SplitHostPort(codec, PrintHostPart(h)) == Ok((host, port)) <==> HostMeans(codec, h, host, port)
  {
    match h
    case PlainHost(raw, given) => PlainExactly(codec, raw, given, host, port);
    case Bracketed(raw, after) => BracketedExactly(codec, raw, after, host, port);
    case Unclosed(text) =>
      assert PrintHostPart(h)[1..] == text;
      SplitFirstExactly(text, ']');
  }

  lemma AuthorityExactly(p: Parts)
    requires PartsOk(p)
    ensures Authority(PrintAuthorityPart(p)) ==
            (if p.user.None? then None else Some(PrintUserPart(p.user.value)), PrintHostPart(p.host))
  {
    hide PrintHostPart, PrintUserPart, SplitLast;
    if p.user.None? {
      SplitLastParts(PrintHostPart(p.host), '@');
    } else {
      SplitLastAt(PrintUserPart(p.user.value), '@', PrintHostPart(p.host));
    }
  }

  function DraftOf(b: Base): Draft { Draft(b.host, b.port, b.database, b.user, b.password, false, false, []) }

  lemma DraftExactly(codec: Codec, p: Parts, b: Base)
    requires PartsOk(p)
    ensures FirstDraft(codec, PrintAuthorityPart(p), p.path) == Ok(DraftOf(b)) <==> BaseMeans(codec, p, b)
  {
    hide PartsOk, UserAndPassword, UserMeans, SplitHostPort, HostMeans, Authority, PercentDecode, StandsFor,
      PrintAuthorityPart, PrintHostPart, PrintUserPart;
    PartsHold(p);
    AuthorityExactly(p);
    UserExactly(codec, p.user, b.user, b.password);
    HostExactly(codec, p.host, b.host, b.port);
    if p.path.Some? {
      DecodeMeans(codec, p.path.value);
    }
  }

  lemma PartsHold(p: Parts)
    requires PartsOk(p)
    ensures HostOk(p.host) && (p.user.Some? ==> ':' !in p.user.value.user)
  {
  }

  /* ---- What the parameters mean ---- */

  type Params = seq<(string, string)>

  const MODES := {"disable", "allow", "prefer", "require", "verify-ca", "verify-full"}
  const KNOWN := {"host", "hostaddr", "port", "dbname", "user", "password", "sslmode"}

  // The decoded parameters, in their order; empty pairs do not count.
  ghost predicate ParamsOf(codec: Codec, pairs: seq<Pair>, params: Params) {
    if pairs == [] then params == []
    else
      var n := |pairs| - 1;
      match pairs[n]
      case NoPair => ParamsOf(codec, pairs[..n], params)
      case Pair(key, value) =>
        params != [] && StandsFor(codec, key, params[|params| - 1].0) &&
        StandsFor(codec, value, params[|params| - 1].1) && ParamsOf(codec, pairs[..n], params[..|params| - 1])
      case Unpaired(_) => false
  }

  ghost predicate ParamOk(key: string, value: string) {
    (key == "host" || key == "hostaddr" ==> ',' !in value) && (key == "port" ==> exists n: nat :: PortOf(value, n)) &&
    (key == "sslmode" ==> value in MODES)
  }

  ghost predicate AllOk(params: Params) { forall i :: 0 <= i < |params| ==> ParamOk(params[i].0, params[i].1) }

  // The last value a parameter is given.
  function Latest(params: Params, key: string): Option<string> {
    if params == [] then None
    else if params[|params| - 1].0 == key then Some(params[|params| - 1].1)
    else Latest(params[..|params| - 1], key)
  }

  // Where the last `host` is, or before all parameters.
  ghost predicate LastHost(params: Params, k: int) {
    -1 <= k < |params| && (k >= 0 ==> params[k].0 == "host") && forall j :: k < j < |params| ==> params[j].0 != "host"
  }

  // The first address after it that is not empty.
  ghost predicate FirstAddress(params: Params, k: int, j: int) {
    k < j && IsAddress(params, j) && forall i :: k < i < j ==> !IsAddress(params, i)
  }

  predicate IsAddress(params: Params, i: int) {
    0 <= i < |params| && params[i].0 == "hostaddr" && params[i].1 != ""
  }

  function HostAt(params: Params, base: string, k: int): string
    requires -1 <= k < |params|
  {
    if k < 0 then base else params[k].1
  }

  // The last `host` gives the host; if it is empty, the first address after it does.
  ghost predicate HostIs(params: Params, base: string, host: string) {
    exists k :: LastHost(params, k) &&
      if HostAt(params, base, k) != "" then host == HostAt(params, base, k)
      else if exists j :: FirstAddress(params, k, j) then exists j :: FirstAddress(params, k, j) && host == params[j].1
      else host == ""
  }

  // What is read after some parameters.
  ghost predicate DraftIs(b: Base, params: Params, d: Draft) {
    HostIs(params, b.host, d.host) && PortIs(params, b.port, d.port) && TextsAre(b, params, d) &&
    ModeIs(params, d.ssl, d.sslDowngraded) && IgnoredAre(params, d.ignored)
  }

  ghost predicate TextsAre(b: Base, params: Params, d: Draft) {
    d.database == OrElse(Latest(params, "dbname"), b.database) && d.user == OrElse(Latest(params, "user"), b.user) &&
    d.password == if Latest(params, "password").Some? then Latest(params, "password") else b.password
  }

  ghost predicate ModeIs(params: Params, ssl: bool, downgraded: bool) {
    (ssl <==> Encrypted(Latest(params, "sslmode"))) && (downgraded <==> Verified(Latest(params, "sslmode")))
  }

  ghost predicate IgnoredAre(params: Params, ignored: seq<string>) {
    forall key :: key in ignored <==> key !in KNOWN && Latest(params, key).Some?
  }

  function OrElse(value: Option<string>, other: string): string { if value.Some? then value.value else other }

  ghost predicate PortIs(params: Params, base: Option<nat>, port: Option<nat>) {
    if Latest(params, "port").Some? then port.Some? && PortOf(Latest(params, "port").value, port.value)
    else port == base
  }

  predicate Encrypted(mode: Option<string>) {
    mode == Some("require") || mode == Some("verify-ca") || mode == Some("verify-full")
  }

  predicate Verified(mode: Option<string>) { mode == Some("verify-ca") || mode == Some("verify-full") }

  /* ---- One more parameter ---- */

  lemma NoParams(b: Base)
    ensures DraftIs(b, [], DraftOf(b))
  {
    assert LastHost([], -1);
  }

  lemma LatestNext(params: Params, key: string, value: string, other: string)
    ensures Latest(params + [(key, value)], other) == if key == other then Some(value) else Latest(params, other)
  {
    assert (params + [(key, value)])[..|params|] == params;
  }

  lemma HostNext(params: Params, base: string, host: string, value: string)
    ensures HostIs(params + [("host", value)], base, value)
  {
    var more := params + [("host", value)];
    assert LastHost(more, |params|);
    assert forall j :: !FirstAddress(more, |params|, j);
  }

  lemma AddressNext(params: Params, base: string, host: string, value: string)
    requires HostIs(params, base, host)
    ensures HostIs(params + [("hostaddr", value)], base, if host == "" then value else host)
  {
    var more := params + [("hostaddr", value)];
    var k :| LastHost(params, k) &&
      if HostAt(params, base, k) != "" then host == HostAt(params, base, k)
      else if exists j :: FirstAddress(params, k, j) then exists j :: FirstAddress(params, k, j) && host == params[j].1
      else host == "";
    assert LastHost(more, k) && HostAt(more, base, k) == HostAt(params, base, k);
    if HostAt(params, base, k) == "" {
      assert forall i :: 0 <= i < |params| ==> (IsAddress(more, i) <==> IsAddress(params, i));
      if j :| FirstAddress(params, k, j) && host == params[j].1 {
        assert FirstAddress(more, k, j);
      } else {
        NoAddress(params, k, |params| - 1);
        if value != "" {
          assert FirstAddress(more, k, |params|);
        } else {
          assert forall j :: !FirstAddress(more, k, j);
        }
      }
    }
  }

  // If there is no first address there is none.
  lemma {:induction false} NoAddress(params: Params, k: int, i: int)
    requires -1 <= k <= i < |params| && forall j :: !FirstAddress(params, k, j)
    ensures forall h :: k < h <= i ==> !IsAddress(params, h)
    decreases i - k
  {
    if i > k {
      NoAddress(params, k, i - 1);
      assert !FirstAddress(params, k, i);
    }
  }

  lemma OtherNext(params: Params, base: string, host: string, key: string, value: string)
    requires HostIs(params, base, host) && key != "host" && key != "hostaddr"
    ensures HostIs(params + [(key, value)], base, host)
  {
    var more := params + [(key, value)];
    var k :| LastHost(params, k) &&
      if HostAt(params, base, k) != "" then host == HostAt(params, base, k)
      else if exists j :: FirstAddress(params, k, j) then exists j :: FirstAddress(params, k, j) && host == params[j].1
      else host == "";
    assert LastHost(more, k) && HostAt(more, base, k) == HostAt(params, base, k);
    assert forall i :: IsAddress(more, i) <==> IsAddress(params, i);
    assert forall j :: FirstAddress(more, k, j) <==> FirstAddress(params, k, j);
    if j :| FirstAddress(params, k, j) && host == params[j].1 {
      assert FirstAddress(more, k, j) && more[j] == params[j];
    }
  }

  // TLS is used for these three modes, verification is given up for the last two, and there are three others.
  lemma ModeExactly(mode: string)
    ensures SslFromMode(mode).Some? <==> mode in MODES
    ensures SslFromMode(mode).Some? ==>
      (SslFromMode(mode).value.0 <==> Encrypted(Some(mode))) && (SslFromMode(mode).value.1 <==> Verified(Some(mode)))
  {
  }

  // What is wrong with a parameter.
  ghost predicate ParamWrong(key: string, value: string, e: UrlError) {
    (e == MultipleHosts && (key == "host" || key == "hostaddr") && ',' in value) ||
    (e == Port && key == "port" && forall n: nat :: !PortOf(value, n)) ||
    (e == SslMode && key == "sslmode" && value !in MODES)
  }

  lemma ParamExactly(d: Draft, key: string, value: string)
    ensures ApplyParameter(d, key, value).Ok? <==> ParamOk(key, value)
    ensures ApplyParameter(d, key, value).Err? ==> ParamWrong(key, value, ApplyParameter(d, key, value).error)
  {
    hide ParsePort, PortOf, SslFromMode;
    PortNone(value);
    ModeExactly(value);
  }

  lemma HostKept(b: Base, params: Params, d: Draft, key: string, value: string)
    requires HostIs(params, b.host, d.host) && ApplyParameter(d, key, value).Ok?
    ensures HostIs(params + [(key, value)], b.host, ApplyParameter(d, key, value).value.host)
  {
    hide HostIs, ParsePort, SslFromMode;
    if key == "host" {
      HostNext(params, b.host, d.host, value);
    } else if key == "hostaddr" {
      AddressNext(params, b.host, d.host, value);
    } else {
      OtherNext(params, b.host, d.host, key, value);
    }
  }

  lemma PortKept(b: Base, params: Params, d: Draft, key: string, value: string)
    requires PortIs(params, b.port, d.port) && ApplyParameter(d, key, value).Ok?
    ensures PortIs(params + [(key, value)], b.port, ApplyParameter(d, key, value).value.port)
  {
    hide ParsePort, PortOf, SslFromMode, Latest;
    LatestNext(params, key, value, "port");
    if key == "port" {
      PortExactly(value, ParsePort(value).value);
    }
  }

  lemma TextsKept(b: Base, params: Params, d: Draft, key: string, value: string)
    requires TextsAre(b, params, d) && ApplyParameter(d, key, value).Ok?
    ensures TextsAre(b, params + [(key, value)], ApplyParameter(d, key, value).value)
  {
    hide ParsePort, SslFromMode, Latest;
    LatestNext(params, key, value, "dbname");
    LatestNext(params, key, value, "user");
    LatestNext(params, key, value, "password");
  }

  lemma ModeKept(params: Params, d: Draft, key: string, value: string)
    requires ModeIs(params, d.ssl, d.sslDowngraded) && ApplyParameter(d, key, value).Ok?
    ensures var after := ApplyParameter(d, key, value).value;
      ModeIs(params + [(key, value)], after.ssl, after.sslDowngraded)
  {
    hide ParsePort, SslFromMode, Latest, Encrypted, Verified;
    LatestNext(params, key, value, "sslmode");
    ModeExactly(value);
  }

  lemma IgnoredKept(params: Params, d: Draft, key: string, value: string)
    requires IgnoredAre(params, d.ignored) && ApplyParameter(d, key, value).Ok?
    ensures IgnoredAre(params + [(key, value)], ApplyParameter(d, key, value).value.ignored)
  {
    hide ParsePort, SslFromMode, Latest;
    forall other: string
      ensures Latest(params + [(key, value)], other) == if key == other then Some(value) else Latest(params, other)
    {
      LatestNext(params, key, value, other);
    }
  }

  lemma ParamNext(b: Base, params: Params, d: Draft, key: string, value: string)
    requires DraftIs(b, params, d) && ApplyParameter(d, key, value).Ok?
    ensures DraftIs(b, params + [(key, value)], ApplyParameter(d, key, value).value)
  {
    hide HostIs, PortIs, TextsAre, ModeIs, IgnoredAre, ApplyParameter;
    HostKept(b, params, d, key, value);
    PortKept(b, params, d, key, value);
    TextsKept(b, params, d, key, value);
    ModeKept(params, d, key, value);
    IgnoredKept(params, d, key, value);
  }

  /* ---- The pairs, one after the other ---- */

  ghost predicate PairFine(codec: Codec, pair: Pair) {
    match pair
    case NoPair => true
    case Pair(key, value) => exists k, v :: StandsFor(codec, key, k) && StandsFor(codec, value, v) && ParamOk(k, v)
    case Unpaired(_) => false
  }

  ghost predicate PairWrong(codec: Codec, pair: Pair, e: UrlError) {
    match pair
    case NoPair => false
    case Pair(key, value) =>
      (e == Encoding && ((forall k :: !StandsFor(codec, key, k)) || forall v :: !StandsFor(codec, value, v))) ||
      exists k, v :: StandsFor(codec, key, k) && StandsFor(codec, value, v) && ParamWrong(k, v, e)
    case Unpaired(_) => e == Malformed
  }

  lemma FineOrWrong(codec: Codec, pair: Pair, e: UrlError)
    ensures !(PairFine(codec, pair) && PairWrong(codec, pair, e))
  {
    if pair.Pair? {
      DecodeMeans(codec, pair.key);
      DecodeMeans(codec, pair.value);
    }
  }

  // What one pair does to the draft.
  lemma PairExactly(codec: Codec, b: Base, params: Params, d: Draft, pair: Pair) returns (next: Params)
    requires PairOk(pair) && DraftIs(b, params, d) && AllOk(params)
    ensures var r := ApplyPair(codec, d, PrintPair(pair));
      (r.Err? ==> PairWrong(codec, pair, r.error)) &&
      (r.Ok? ==>
        PairFine(codec, pair) && DraftIs(b, next, r.value) && AllOk(next) && OneMore(codec, params, pair, next))
  {
    hide DraftIs, PercentDecode, StandsFor, ApplyParameter, ParamOk, ParamWrong, SplitFirst;
    next := params;
    match pair
    case NoPair =>
    case Unpaired(text) =>
      SplitFirstExactly(text, '=');
    case Pair(key, value) =>
      SplitFirstAt(key, '=', value);
      DecodeMeans(codec, key);
      DecodeMeans(codec, value);
      var k, v := PercentDecode(codec, key), PercentDecode(codec, value);
      if k.Some? && v.Some? {
        ParamExactly(d, k.value, v.value);
        next := params + [(k.value, v.value)];
        if ApplyParameter(d, k.value, v.value).Ok? {
          ParamNext(b, params, d, k.value, v.value);
        }
      }
  }

  ghost predicate OneMore(codec: Codec, params: Params, pair: Pair, next: Params) {
    match pair
    case NoPair => next == params
    case Pair(key, value) =>
      exists k, v :: StandsFor(codec, key, k) && StandsFor(codec, value, v) && next == params + [(k, v)]
    case Unpaired(_) => false
  }

  lemma ParamsMore(codec: Codec, pairs: seq<Pair>, i: nat, params: Params, next: Params)
    requires i < |pairs| && ParamsOf(codec, pairs[..i], params) && OneMore(codec, params, pairs[i], next)
    ensures ParamsOf(codec, pairs[..i + 1], next)
  {
    assert pairs[..i + 1][..i] == pairs[..i];
    if pairs[i].Pair? {
      assert next[..|next| - 1] == params;
    }
  }

  // All pairs are read, or the first one that is wrong is reported.
  lemma {:induction false} PairsExactly(codec: Codec, b: Base, pairs: seq<Pair>, i: nat, params: Params, d: Draft)
      returns (end: Params, bad: nat)
    requires i <= |pairs| && (forall j :: 0 <= j < |pairs| ==> PairOk(pairs[j]))
    requires ParamsOf(codec, pairs[..i], params) && DraftIs(b, params, d) && AllOk(params)
    requires forall j :: 0 <= j < i ==> PairFine(codec, pairs[j])
    ensures var r := ApplyPairs(codec, d, PrintPairs(pairs)[i..]);
      (r.Ok? ==>
         ParamsOf(codec, pairs, end) && AllOk(end) && DraftIs(b, end, r.value) &&
         forall j :: 0 <= j < |pairs| ==> PairFine(codec, pairs[j])) &&
      (r.Err? ==>
         bad < |pairs| && PairWrong(codec, pairs[bad], r.error) &&
           forall j :: 0 <= j < bad ==> PairFine(codec, pairs[j]))
    decreases |pairs| - i
  {
    hide PairWrong, PairFine, DraftIs, ApplyPair, ParamsOf, OneMore, AllOk;
    end, bad := params, i;
    if i == |pairs| {
      assert pairs[..i] == pairs && PrintPairs(pairs)[i..] == [];
    } else {
      var texts := PrintPairs(pairs)[i..];
      ApplyNext(codec, d, texts);
      assert texts[0] == PrintPair(pairs[i]) && texts[1..] == PrintPairs(pairs)[i + 1..];
      var next := PairExactly(codec, b, params, d, pairs[i]);
      var r := ApplyPair(codec, d, texts[0]);
      if r.Ok? {
        ParamsMore(codec, pairs, i, params, next);
        end, bad := PairsExactly(codec, b, pairs, i + 1, next, r.value);
      }
    }
  }

  /* ---- The whole URL ---- */

  predicate HostGiven(host: string, given: string) {
    if host == "" then given == "localhost" else given == host && host[0] != '/' && host[0] != '@'
  }

  predicate PortGiven(port: Option<nat>, given: nat) { given == if port.None? then 5432 else port.value }

  predicate PasswordGiven(password: Option<string>, given: Option<string>) {
    if password == Some("") then given.None? else given == password
  }

  // The connection the parts and the parameters describe, with the defaults for what was left empty.
  ghost predicate Describes(b: Base, params: Params, c: ImportedConnection) {
    (exists host :: HostIs(params, b.host, host) && HostGiven(host, c.host)) &&
    (exists port :: PortIs(params, b.port, port) && PortGiven(port, c.port)) &&
    c.user == OrElse(Latest(params, "user"), b.user) && DatabaseIs(b, params, c) &&
    PasswordGiven(if Latest(params, "password").Some? then Latest(params, "password") else b.password, c.password) &&
    ModeIs(params, c.ssl, c.sslDowngraded) && IgnoredAre(params, c.ignored) && Ascending(c.ignored) &&
    c.title == if c.database == "" then c.host else c.database + "@" + c.host
  }

  predicate DatabaseIs(b: Base, params: Params, c: ImportedConnection) {
    var database := OrElse(Latest(params, "dbname"), b.database);
    c.database == if database == "" then c.user else database
  }

  lemma HostOne(params: Params, base: string, a: string, b: string)
    requires HostIs(params, base, a) && HostIs(params, base, b)
    ensures a == b
  {
    var k :| LastHost(params, k) &&
      if HostAt(params, base, k) != "" then a == HostAt(params, base, k)
      else if exists j :: FirstAddress(params, k, j) then exists j :: FirstAddress(params, k, j) && a == params[j].1
      else a == "";
    var l :| LastHost(params, l) &&
      if HostAt(params, base, l) != "" then b == HostAt(params, base, l)
      else if exists j :: FirstAddress(params, l, j) then exists j :: FirstAddress(params, l, j) && b == params[j].1
      else b == "";
    assert k == l;
    if i, j :| FirstAddress(params, k, i) && FirstAddress(params, k, j) && a == params[i].1 && b == params[j].1 {
      assert i == j;
    }
  }

  lemma PortOne(params: Params, base: Option<nat>, a: Option<nat>, b: Option<nat>)
    requires PortIs(params, base, a) && PortIs(params, base, b)
    ensures a == b
  {
    hide PortOf, ParsePort;
    if Latest(params, "port").Some? {
      PortExactly(Latest(params, "port").value, a.value);
      PortExactly(Latest(params, "port").value, b.value);
    }
  }

  lemma IgnoredOne(params: Params, names: seq<string>, listed: seq<string>)
    requires IgnoredAre(params, names)
    ensures listed == Ignored(names) <==> IgnoredAre(params, listed) && Ascending(listed)
  {
    hide Latest, Ascending;
    assert forall n :: n in Ignored(names) <==> n in names;
    if IgnoredAre(params, listed) && Ascending(listed) {
      ListedOnce(listed, Ignored(names));
    }
  }

  lemma FinishedExactly(b: Base, params: Params, d: Draft, c: ImportedConnection)
    requires DraftIs(b, params, d)
    ensures Finished(d) == Ok(c) <==> Describes(b, params, c)
  {
    hide HostIs, PortIs, Ignored, Latest, ModeIs, IgnoredAre, Ascending;
    IgnoredOne(params, d.ignored, c.ignored);
    if Describes(b, params, c) {
      var host :| HostIs(params, b.host, host) && HostGiven(host, c.host);
      var port :| PortIs(params, b.port, port) && PortGiven(port, c.port);
      HostOne(params, b.host, host, d.host);
      PortOne(params, b.port, port, d.port);
      ModeOne(params, d.ssl, d.sslDowngraded, c.ssl, c.sslDowngraded);
    }
  }

  lemma ModeOne(params: Params, a: bool, b: bool, c: bool, d: bool)
    requires ModeIs(params, a, b) && ModeIs(params, c, d)
    ensures a == c && b == d
  {
  }

  // The parameters are what they are.
  lemma {:induction false} ParamsOne(codec: Codec, pairs: seq<Pair>, a: Params, b: Params)
    requires ParamsOf(codec, pairs, a) && ParamsOf(codec, pairs, b)
    ensures a == b
  {
    hide StandsFor;
    if pairs != [] {
      var n := |pairs| - 1;
      match pairs[n]
      case NoPair => ParamsOne(codec, pairs[..n], a, b);
      case Pair(key, value) =>
        ParamsOne(codec, pairs[..n], a[..|a| - 1], b[..|b| - 1]);
        DecodeMeans(codec, key);
        DecodeMeans(codec, value);
        assert a == a[..|a| - 1] + [a[|a| - 1]] && b == b[..|b| - 1] + [b[|b| - 1]];
      case Unpaired(_) =>
    }
  }

  // So are all pairs, then.
  lemma {:induction false} ParamsFine(codec: Codec, pairs: seq<Pair>, params: Params)
    requires ParamsOf(codec, pairs, params) && AllOk(params)
    ensures forall i :: 0 <= i < |pairs| ==> PairFine(codec, pairs[i])
  {
    hide StandsFor, ParamOk;
    if pairs != [] {
      var n := |pairs| - 1;
      match pairs[n]
      case NoPair => ParamsFine(codec, pairs[..n], params);
      case Pair(key, value) => ParamsFine(codec, pairs[..n], params[..|params| - 1]);
      case Unpaired(_) =>
    }
  }

  lemma {:induction false} SchemeRead(scheme: string, prefix: string, rest: string)
    requires LowersTo(scheme, prefix) && LowersTo(prefix, prefix)
    ensures AfterPrefix(scheme + rest, prefix) == Some(rest)
  {
    LowersOne(scheme, prefix);
    LowersOne(prefix, prefix);
    assert (scheme + rest)[..|prefix|] == scheme && (scheme + rest)[|prefix|..] == rest;
  }

  const LONG := "postgresql://"
  const SHORT := "postgres://"

  lemma LongIsLower()
    ensures LowersTo(LONG, LONG) && LowersTo(SHORT, SHORT) && LONG[8] == 'q' && SHORT[8] == ':'
  {
  }

  lemma SchemeExactly(scheme: string, rest: string)
    requires IsScheme(scheme)
    ensures AfterScheme(scheme + rest) == Some(rest)
  {
    hide AfterPrefix, LowersTo;
    LongIsLower();
    if LowersTo(scheme, LONG) {
      SchemeRead(scheme, LONG, rest);
    } else {
      SchemeRead(scheme, SHORT, rest);
      NotLong(scheme, rest);
    }
  }

  lemma NotLong(scheme: string, rest: string)
    requires LowersTo(scheme, SHORT)
    ensures AfterPrefix(scheme + rest, LONG).None?
  {
    var text := scheme + rest;
    LongIsLower();
    if |text| >= |LONG| {
      assert text[..|LONG|][8] == scheme[8];
      LowerExactly(text[..|LONG|]);
      assert AsciiLower(text[..|LONG|])[8] != AsciiLower(LONG)[8];
    }
  }

  lemma SectionsExactly(p: Parts)
    requires PartsOk(p)
    ensures var sections := Sections(PrintParts(p));
      sections.0 == PrintAuthorityPart(p) && sections.1 == p.path &&
      SplitAll(sections.2, '&') == PrintPairs(PairsIn(p))
  {
    hide PrintAuthorityPart, PrintPair, SplitFirst;
    FrontExactly(p);
    if p.query.None? {
      SplitFirstExactly(PrintFront(p), '?');
      assert PrintFront(p) + "" == PrintFront(p);
      PairsApart([NoPair]);
      OnlyEmpty();
    } else {
      SplitFirstAt(PrintFront(p), '?', Rejoined(PrintPairs(p.query.value), '&'));
      assert PrintParts(p) == PrintFront(p) + ['?'] + Rejoined(PrintPairs(p.query.value), '&');
      PairsApart(p.query.value);
    }
  }

  lemma OnlyEmpty()
    ensures Rejoined(PrintPairs([NoPair]), '&') == ""
  {
  }

  lemma FrontExactly(p: Parts)
    requires PartsOk(p)
    ensures var path := SplitFirst(PrintFront(p), '/');
      (p.path.None? ==> path.None? && PrintFront(p) == PrintAuthorityPart(p)) &&
      (p.path.Some? ==> path == Some((PrintAuthorityPart(p), p.path.value)))
  {
    hide PrintAuthorityPart, SplitFirst;
    if p.path.None? {
      SplitFirstExactly(PrintAuthorityPart(p), '/');
      assert PrintAuthorityPart(p) + "" == PrintAuthorityPart(p);
    } else {
      SplitFirstAt(PrintAuthorityPart(p), '/', p.path.value);
      assert PrintFront(p) == PrintAuthorityPart(p) + ['/'] + p.path.value;
    }
  }

  lemma PairsApart(pairs: seq<Pair>)
    requires pairs != [] && forall i :: 0 <= i < |pairs| ==> PairOk(pairs[i])
    ensures SplitAll(Rejoined(PrintPairs(pairs), '&'), '&') == PrintPairs(pairs)
  {
    forall part | part in PrintPairs(pairs)
      ensures '&' !in part
    {
      var i :| 0 <= i < |pairs| && PrintPair(pairs[i]) == part;
    }
    SplitRejoined(PrintPairs(pairs), '&');
  }

  // The URL is accepted as this connection exactly if its parts describe it.
  ghost predicate UrlMeans(codec: Codec, p: Parts, c: ImportedConnection) {
    exists b, params :: BaseMeans(codec, p, b) && ParamsOf(codec, PairsIn(p), params) && AllOk(params) &&
      Describes(b, params, c)
  }

  lemma PairsAreOk(p: Parts)
    requires PartsOk(p)
    ensures forall i :: 0 <= i < |PairsIn(p)| ==> PairOk(PairsIn(p)[i])
  {
  }

  lemma BaseOf(d: Draft, codec: Codec, authority: string, path: Option<string>)
    requires FirstDraft(codec, authority, path) == Ok(d)
    ensures d == DraftOf(Base(d.user, d.password, d.host, d.port, d.database))
  {
    hide Authority, UserAndPassword, SplitHostPort, PercentDecode;
  }

  lemma ComposedRead(url: string, p: Parts)
    requires Composed(url, p)
    ensures AfterScheme(Trim(url)) == Some(PrintParts(p))
  {
    hide PrintParts, IsScheme;
    var scheme :| IsScheme(scheme) && Trims(url, scheme + PrintParts(p));
    TrimsOne(url, scheme + PrintParts(p));
    SchemeExactly(scheme, PrintParts(p));
  }

  lemma StartOf(pairs: seq<Pair>, codec: Codec, b: Base)
    ensures ParamsOf(codec, pairs[..0], []) && AllOk([]) && DraftIs(b, [], DraftOf(b)) &&
      PrintPairs(pairs)[0..] == PrintPairs(pairs)
  {
    NoParams(b);
  }

  lemma UrlExactly(codec: Codec, url: string, p: Parts, c: ImportedConnection)
    requires Composed(url, p)
    ensures ParsedUrl(codec, url) == Ok(c) <==> UrlMeans(codec, p, c)
  {
    hide AfterScheme, Sections, FirstDraft, ApplyPairs, SplitAll, Trim, Finished, BaseMeans, ParamsOf, AllOk, Describes,
      DraftIs, DraftOf, PrintPairs, PairsIn, PairFine, PairWrong, PartsOk, PrintAuthorityPart;
    var pairs, texts := PairsIn(p), PrintPairs(PairsIn(p));
    assert PartsOk(p);
    ComposedRead(url, p);
    SectionsExactly(p);
    PairsAreOk(p);
    var draft := FirstDraft(codec, PrintAuthorityPart(p), p.path);
    if UrlMeans(codec, p, c) {
      var b, params :| BaseMeans(codec, p, b) && ParamsOf(codec, pairs, params) && AllOk(params) &&
                       Describes(b, params, c);
      DraftExactly(codec, p, b);
      StartOf(pairs, codec, b);
      var end, bad := PairsExactly(codec, b, pairs, 0, [], DraftOf(b));
      ParamsFine(codec, pairs, params);
      var read := ApplyPairs(codec, DraftOf(b), texts);
      if read.Err? {
        FineOrWrong(codec, pairs[bad], read.error);
      } else {
        ParamsOne(codec, pairs, params, end);
        FinishedExactly(b, end, read.value, c);
      }
    }
    if ParsedUrl(codec, url) == Ok(c) {
      var d := draft.value;
      var b := Base(d.user, d.password, d.host, d.port, d.database);
      BaseOf(d, codec, PrintAuthorityPart(p), p.path);
      DraftExactly(codec, p, b);
      StartOf(pairs, codec, b);
      var end, bad := PairsExactly(codec, b, pairs, 0, [], DraftOf(b));
      FinishedExactly(b, end, ApplyPairs(codec, DraftOf(b), texts).value, c);
    }
  }

  /* ---- What is refused, and why ---- */

  // A text before the query stands for nothing.
  ghost predicate Meaningless(codec: Codec, raw: string) { forall value :: !StandsFor(codec, raw, value) }

  function RawHost(h: HostPart): string { if h.Unclosed? then h.text else h.host }

  ghost predicate BaseWrong(codec: Codec, p: Parts, e: UrlError) {
    match e
    case Encoding =>
      (p.user.Some? && (Meaningless(codec, p.user.value.user) ||
         (p.user.value.password.Some? && Meaningless(codec, p.user.value.password.value)))) ||
      Meaningless(codec, RawHost(p.host)) || (p.path.Some? && Meaningless(codec, p.path.value))
    case MultipleHosts => ',' in PrintHostPart(p.host)
    case Port =>
      (p.host.PlainHost? && p.host.port.Some? && forall n: nat :: !PortOf(p.host.port.value, n)) ||
      (p.host.Bracketed? && p.host.after != "" && p.host.after[0] == ':' &&
         forall n: nat :: !PortOf(p.host.after[1..], n))
    case Malformed =>
      p.host.Unclosed? ||
      (p.host.Bracketed? && (':' !in p.host.host || (p.host.after != "" && p.host.after[0] != ':')))
    case _ => false
  }

  // What is wrong with a URL that is refused; if it is a parameter, it is the first one that is wrong.
  ghost predicate Explains(codec: Codec, p: Parts, e: UrlError) {
    BaseWrong(codec, p, e) ||
    (exists b :: BaseMeans(codec, p, b) && exists i :: FirstWrong(codec, PairsIn(p), i, e)) ||
    (e == UnixSocket &&
     exists b, params, host :: BaseMeans(codec, p, b) && ParamsOf(codec, PairsIn(p), params) &&
       HostIs(params, b.host, host) && SocketHost(host))
  }

  predicate SocketHost(host: string) { host != "" && (host[0] == '/' || host[0] == '@') }

  ghost predicate FirstWrong(codec: Codec, pairs: seq<Pair>, i: nat, e: UrlError) {
    i < |pairs| && PairWrong(codec, pairs[i], e) && forall j :: 0 <= j < i ==> PairFine(codec, pairs[j])
  }

  lemma DecodeFails(codec: Codec, raw: string)
    requires PercentDecode(codec, raw).None?
    ensures Meaningless(codec, raw)
  {
    DecodeMeans(codec, raw);
  }

  lemma HostRefused(codec: Codec, p: Parts)
    requires PartsOk(p) && SplitHostPort(codec, PrintHostPart(p.host)).Err?
    ensures BaseWrong(codec, p, SplitHostPort(codec, PrintHostPart(p.host)).error)
  {
    hide PercentDecode, StandsFor, SplitFirst, SplitLast, ParsePort, PortOf, Meaningless, PrintAuthorityPart,
      PrintFront;
    if PercentDecode(codec, RawHost(p.host)).None? {
      DecodeFails(codec, RawHost(p.host));
    }
    match p.host
    case PlainHost(raw, given) =>
      if given.None? {
        SplitLastParts(raw, ':');
      } else {
        SplitLastAt(raw, ':', given.value);
        PortNone(given.value);
      }
    case Bracketed(raw, after) =>
      assert PrintHostPart(p.host)[1..] == raw + [']'] + after;
      SplitFirstAt(raw, ']', after);
      if after != "" {
        PortNone(after[1..]);
      }
    case Unclosed(text) =>
      assert PrintHostPart(p.host)[1..] == text;
      SplitFirstExactly(text, ']');
  }

  lemma UserRefused(codec: Codec, p: Parts)
    requires p.user.Some? && ':' !in p.user.value.user
    requires UserAndPassword(codec, Some(PrintUserPart(p.user.value))).Err?
    ensures BaseWrong(codec, p, UserAndPassword(codec, Some(PrintUserPart(p.user.value))).error)
  {
    hide PercentDecode, StandsFor, SplitFirst, Meaningless;
    var u := p.user.value;
    if PercentDecode(codec, u.user).None? {
      DecodeFails(codec, u.user);
    }
    if u.password.None? {
      SplitFirstExactly(u.user, ':');
    } else {
      SplitFirstAt(u.user, ':', u.password.value);
      if PercentDecode(codec, u.password.value).None? {
        DecodeFails(codec, u.password.value);
      }
    }
  }

  lemma BaseRefused(codec: Codec, p: Parts)
    requires PartsOk(p) && FirstDraft(codec, PrintAuthorityPart(p), p.path).Err?
    ensures BaseWrong(codec, p, FirstDraft(codec, PrintAuthorityPart(p), p.path).error)
  {
    hide PartsOk, UserAndPassword, SplitHostPort, Authority, PercentDecode, StandsFor, PrintAuthorityPart,
      PrintHostPart, PrintUserPart, Meaningless, PortOf;
    PartsHold(p);
    AuthorityExactly(p);
    NoUser(codec);
    if p.user.Some? && UserAndPassword(codec, Some(PrintUserPart(p.user.value))).Err? {
      UserRefused(codec, p);
    } else if ',' !in PrintHostPart(p.host) {
      if SplitHostPort(codec, PrintHostPart(p.host)).Err? {
        HostRefused(codec, p);
      } else {
        DecodeFails(codec, p.path.value);
      }
    }
  }

  lemma NoUser(codec: Codec)
    ensures UserAndPassword(codec, None).Ok?
  {
  }

  lemma SocketRefused(d: Draft)
    requires Finished(d).Err?
    ensures Finished(d).error == UnixSocket && SocketHost(d.host)
  {
    hide Ignored;
  }

  lemma UrlRefused(codec: Codec, url: string, p: Parts)
    requires Composed(url, p) && ParsedUrl(codec, url).Err?
    ensures Explains(codec, p, ParsedUrl(codec, url).error)
  {
    hide AfterScheme, Sections, FirstDraft, ApplyPairs, SplitAll, Trim, BaseMeans, ParamsOf, AllOk, HostIs, BaseWrong,
      DraftOf, PrintPairs, PairsIn, PairFine, PairWrong, PartsOk, PrintAuthorityPart, Finished, PortIs, TextsAre,
      ModeIs, IgnoredAre, SocketHost;
    var pairs, texts := PairsIn(p), PrintPairs(PairsIn(p));
    assert PartsOk(p);
    ComposedRead(url, p);
    SectionsExactly(p);
    PairsAreOk(p);
    var draft := FirstDraft(codec, PrintAuthorityPart(p), p.path);
    if draft.Err? {
      BaseRefused(codec, p);
    } else {
      var d := draft.value;
      var b := Base(d.user, d.password, d.host, d.port, d.database);
      BaseOf(d, codec, PrintAuthorityPart(p), p.path);
      DraftExactly(codec, p, b);
      StartOf(pairs, codec, b);
      var end, bad := PairsExactly(codec, b, pairs, 0, [], DraftOf(b));
      var read := ApplyPairs(codec, DraftOf(b), texts);
      if read.Err? {
        assert FirstWrong(codec, pairs, bad, read.error);
      } else {
        SocketRefused(read.value);
        assert BaseMeans(codec, p, b) && ParamsOf(codec, pairs, end) && HostIs(end, b.host, read.value.host) &&
               SocketHost(read.value.host);
      }
    }
  }

  /* ---- Every URL with a scheme has parts ---- */

  function PairOf(text: string): Pair {
    var parts := SplitFirst(text, '=');
    if parts.Some? then Pair(parts.value.0, parts.value.1) else if text == "" then NoPair else Unpaired(text)
  }

  lemma PairOfPrints(text: string)
    requires '&' !in text
    ensures PairOk(PairOf(text)) && PrintPair(PairOf(text)) == text
  {
    SplitFirstExactly(text, '=');
  }

  function PairsOf(texts: seq<string>): seq<Pair> {
    seq(|texts|, i requires 0 <= i < |texts| => PairOf(texts[i]))
  }

  function HostOf(text: string): HostPart {
    if text != "" && text[0] == '[' then
      var parts := SplitFirst(text[1..], ']');
      if parts.Some? then Bracketed(parts.value.0, parts.value.1) else Unclosed(text[1..])
    else
      var parts := SplitLast(text, ':');
      if parts.Some? then PlainHost(parts.value.0, Some(parts.value.1)) else PlainHost(text, None)
  }

  lemma HostOfPrints(text: string)
    ensures HostOk(HostOf(text)) && PrintHostPart(HostOf(text)) == text
  {
    if text != "" && text[0] == '[' {
      SplitFirstExactly(text[1..], ']');
      assert text == ['['] + text[1..];
    } else {
      SplitLastParts(text, ':');
    }
  }

  function UserOf(text: string): UserPart {
    var parts := SplitFirst(text, ':');
    if parts.Some? then UserPart(parts.value.0, Some(parts.value.1)) else UserPart(text, None)
  }

  lemma UserOfPrints(text: string)
    ensures ':' !in UserOf(text).user && PrintUserPart(UserOf(text)) == text
  {
    SplitFirstExactly(text, ':');
  }

  function PartsOf(rest: string): Parts {
    var query := SplitFirst(rest, '?');
    var front := if query.Some? then query.value.0 else rest;
    var path := SplitFirst(front, '/');
    var authority := if path.Some? then path.value.0 else front;
    var user := SplitLast(authority, '@');
    Parts(if user.Some? then Some(UserOf(user.value.0)) else None,
          HostOf(if user.Some? then user.value.1 else authority),
          if path.Some? then Some(path.value.1) else None,
          if query.Some? then Some(PairsOf(SplitAll(query.value.1, '&'))) else None)
  }

  lemma AuthorityOfPrints(rest: string)
    ensures var p := PartsOf(rest); var query := SplitFirst(rest, '?');
      var front := if query.Some? then query.value.0 else rest; var path := SplitFirst(front, '/');
      PrintAuthorityPart(p) == (if path.Some? then path.value.0 else front) &&
      '@' !in PrintHostPart(p.host) && HostOk(p.host) && (p.user.Some? ==> ':' !in p.user.value.user)
  {
    hide SplitFirst, SplitLast, HostOf, UserOf, HostOk, PrintHostPart, PrintUserPart;
    var query := SplitFirst(rest, '?');
    var front := if query.Some? then query.value.0 else rest;
    var path := SplitFirst(front, '/');
    var authority := if path.Some? then path.value.0 else front;
    var user := SplitLast(authority, '@');
    SplitLastParts(authority, '@');
    HostOfPrints(if user.Some? then user.value.1 else authority);
    if user.Some? {
      UserOfPrints(user.value.0);
    }
  }

  lemma QueryOfPrints(query: string)
    ensures var pairs := PairsOf(SplitAll(query, '&'));
      pairs != [] && (forall i :: 0 <= i < |pairs| ==> PairOk(pairs[i])) && Rejoined(PrintPairs(pairs), '&') == query
  {
    hide PairOf, PairOk, PrintPair, SplitAll;
    SplitAllExactly(query, '&');
    var texts := SplitAll(query, '&');
    forall i | 0 <= i < |texts|
      ensures PairOk(PairOf(texts[i])) && PrintPair(PairOf(texts[i])) == texts[i]
    {
      assert texts[i] in texts;
      PairOfPrints(texts[i]);
    }
    assert PrintPairs(PairsOf(texts)) == texts;
  }

  lemma PartsOfPrints(rest: string)
    ensures PartsOk(PartsOf(rest)) && PrintParts(PartsOf(rest)) == rest
  {
    hide SplitFirst, SplitAll, HostOf, UserOf, HostOk, PrintHostPart, PrintUserPart, PrintAuthorityPart, PairsOf,
      PairOk, PrintPairs, Rejoined;
    var p := PartsOf(rest);
    var query := SplitFirst(rest, '?');
    var front := if query.Some? then query.value.0 else rest;
    SplitFirstExactly(rest, '?');
    SplitFirstExactly(front, '/');
    AuthorityOfPrints(rest);
    assert PrintFront(p) == front;
    if query.Some? {
      QueryOfPrints(query.value.1);
      assert PrintParts(p) == front + (['?'] + query.value.1);
    } else {
      assert PrintParts(p) == front + "";
    }
  }

  lemma PrefixIs(text: string, prefix: string)
    requires AfterPrefix(text, prefix).Some? && LowersTo(prefix, prefix)
    ensures var n := |prefix|;
      |text| >= n && LowersTo(text[..n], prefix) && AfterPrefix(text, prefix) == Some(text[n..])
  {
    LowersOne(prefix, prefix);
    LowersOne(text[..|prefix|], prefix);
  }

  // A URL has parts exactly if it has a scheme, and is refused for it otherwise.
  lemma EveryUrl(codec: Codec, url: string)
    ensures (exists p :: Composed(url, p)) <==> ParsedUrl(codec, url) != Err(Scheme)
  {
    hide PartsOk, PrintParts, AfterPrefix, LowersTo, Sections, FirstDraft, ApplyPairs, Finished, SplitAll, PartsOf,
      Trim;
    if p :| Composed(url, p) {
      ComposedRead(url, p);
      if ParsedUrl(codec, url).Err? {
        UrlRefused(codec, url, p);
        ExplainedOtherwise(codec, p);
      }
    }
    LongIsLower();
    var text := Trim(url);
    if AfterScheme(text).Some? {
      var n := if AfterPrefix(text, LONG).Some? then |LONG| else |SHORT|;
      PrefixIs(text, if AfterPrefix(text, LONG).Some? then LONG else SHORT);
      assert text == text[..n] + text[n..];
      PartsOfPrints(text[n..]);
      TrimsOne(url, text);
      assert IsScheme(text[..n]) && Composed(url, PartsOf(text[n..]));
    }
  }

  lemma ExplainedOtherwise(codec: Codec, p: Parts)
    ensures !Explains(codec, p, Scheme)
  {
    hide StandsFor, PortOf;
  }
}
