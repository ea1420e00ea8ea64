/**
 The target parser (internal/model/target.go:143-172, 339-465, 482-636) on ASCII input, with the
 authority syntax of section 3.2 of RFC 3986 as `net/url` splits it, and the round trip with
 `TargetIdentity`.
 */
module TargetParsers {
  import opened Decimal
  import opened Options
  import opened Targets

  /** IP addresses: `spell` is `netip.ParseAddr` followed by `String`, `normal` normalizes in between. */
  datatype Env = Env(spell: string -> Option<string>, normal: string -> Option<string>)

  datatype Parsed = Parsed(identity: string, literalIp: string, service: string, port: nat, resource: string)

  datatype Result<T> = Ok(value: T) | Failed

  // ---- characters and strings ----

  predicate IsSpace(c: char) {
    c == ' ' || ('\t' <= c <= '\r')
  }

  predicate IsControl(c: char) {
    c < ' ' || c == 127 as char
  }

  predicate IsLetter(c: char) {
    'a' <= c <= 'z' || 'A' <= c <= 'Z'
  }

  predicate IsDigit(c: char) {
    '0' <= c <= '9'
  }

  function LowerChar(c: char): char {
    if 'A' <= c <= 'Z' then ('a' as int + (c as int - 'A' as int)) as char else c
  }

  function Lower(s: string): (r: string)
    ensures |r| == |s| && forall i :: 0 <= i < |s| ==> r[i] == LowerChar(s[i])
  {
    seq(|s|, i requires 0 <= i < |s| => LowerChar(s[i]))
  }

  /** Position of the first c; the length if there is none. */
  function IndexOf(s: string, c: char): (i: nat)
    ensures i <= |s| && (i < |s| ==> s[i] == c)
    ensures forall j :: 0 <= j < i ==> s[j] != c
  {
    if s == "" || s[0] == c then 0 else 1 + IndexOf(s[1..], c)
  }

  /** One past the last c; zero if there is none. */
  function AfterLast(s: string, c: char): (i: nat)
    ensures i <= |s| && (i > 0 ==> s[i - 1] == c)
    ensures forall j :: i <= j < |s| ==> s[j] != c
  {
    if s == "" then 0 else if s[|s| - 1] == c then |s| else AfterLast(s[..|s| - 1], c)
  }

  function Occurrences(s: string, c: char): nat {
    if s == "" then 0 else Occurrences(s[1..], c) + if s[0] == c then 1 else 0
  }

  predicate Without(s: string, c: char) {
    c !in s
  }

  predicate HasPrefix(s: string, t: string) {
    t <= s
  }

  predicate ContainsSlashes(s: string) {
    exists i :: 0 <= i < |s| - 2 && s[i] == ':' && s[i + 1] == '/' && s[i + 2] == '/'
  }

  // ---- ports ----

  /** `parsePort`: `strconv.ParseUint` with base 10 and 16 bits, and not zero. */
  function ParsePort(s: string): Option<nat> {
    if s == "" || !AllDigits(s) then None
    else if Value(s) == 0 || Value(s) > 65535 then None
    else Some(Value(s))
  }

  // ---- services ----

  const SERVICES: seq<string> := [HTTP, HTTPS, SMB, RDP, SSH, DNS, CUSTOM_TCP, CUSTOM_TLS]

  function DefaultPort(service: string): nat {
    if service == HTTP then 80
    else if service == HTTPS then 443
    else if service == SMB then 445
    else if service == RDP then 3389
    else if service == SSH then 22
    else if service == DNS then 53
    else 0
  }

  /** `profileForScheme`, on a lower-case scheme. */
  function ProfileForScheme(scheme: string): Option<string> {
    if scheme == "http" then Some(HTTP)
    else if scheme == "https" then Some(HTTPS)
    else if scheme == "smb" then Some(SMB)
    else if scheme == "rdp" then Some(RDP)
    else if scheme == "ssh" then Some(SSH)
    else if scheme == "dns" then Some(DNS)
    else if scheme == "tcp" then Some(CUSTOM_TCP)
    else if scheme == "tls" then Some(CUSTOM_TLS)
    else None
  }

  // ---- hosts ----

  predicate LabelChar(c: char) {
    c == '-' || c == '_' || 'a' <= c <= 'z' || IsDigit(c) || c > 127 as char
  }

  predicate ValidLabel(part: string) {
    0 < |part| <= 63 && part[0] != '-' && part[|part| - 1] != '-' && forall i :: 0 <= i < |part| ==> LabelChar(part[i])
  }

  /** Every part between dots is a label. */
  predicate ValidLabels(host: string) {
    var i := IndexOf(host, '.');
    ValidLabel(host[..i]) && (i < |host| ==> ValidLabels(host[i + 1..]))
  }

  /** Without a final dot. */
  function Trimmed(host: string): string {
    if host != "" && host[|host| - 1] == '.' then host[..|host| - 1] else host
  }

  /** `canonicalIdentity`: identity and literal address. */
  function Canonical(env: Env, host: string): Result<(string, string)> {
    if host == "" || exists i :: 0 <= i < |host| && (IsSpace(host[i]) || IsControl(host[i])) then Failed
    else if env.normal(host).Some? then Ok((env.normal(host).value, env.normal(host).value))
    else if |host| > 253 || '[' in host || ']' in host || '/' in host then Failed
    else
      var trimmed := Lower(Trimmed(host));
      if trimmed == "" || !ValidLabels(trimmed) then Failed else Ok((trimmed, ""))
  }

  // ---- host input without a scheme ----

  /** `net.SplitHostPort`. */
  function SplitHostPort(s: string): Option<(string, string)> {
    var i := AfterLast(s, ':');
    if i == 0 then None
    else if s[0] == '[' then
      var end := IndexOf(s, ']');
      if end + 2 != i || '[' in s[1..] || ']' in s[end + 1..] then None else Some((s[1..end], s[i..]))
    else if ':' in s[..i - 1] || '[' in s || ']' in s then None
    else Some((s[..i - 1], s[i..]))
  }

  /** `parseHostInput`: host, and port where there is one. */
  function ParseHostInput(env: Env, s: string): Result<(string, Option<nat>)> {
    if env.spell(s).Some? then Ok((env.spell(s).value, None))
    else if s != "" && s[0] == '[' then
      var close := IndexOf(s, ']');
      if close == |s| || env.spell(s[1..close]).None? then Failed
      else
        var rest := s[close + 1..];
        if rest == "" then Ok((s[1..close], None))
        else if rest[0] != ':' || ParsePort(rest[1..]).None? then Failed
        else Ok((s[1..close], ParsePort(rest[1..])))
    else
      match SplitHostPort(s)
      case Some((host, port)) => if host == "" || ParsePort(port).None? then Failed else Ok((host, ParsePort(port)))
      case None =>
        var i := AfterLast(s, ':');
        if i > 0 && Occurrences(s, ':') == 1 then
          if i == 1 || i == |s| || ParsePort(s[i..]).None? then Failed else Ok((s[..i - 1], ParsePort(s[i..])))
        else if ':' in s then Failed
        else Ok((s, None))
  }

  // ---- URLs ----

  datatype Url = Url(scheme: string, user: bool, host: string, port: string, path: string, query: string, fragment: bool)

  predicate SchemeOk(s: string) {
    s != "" && IsLetter(s[0]) && forall i :: 0 <= i < |s| ==> IsLetter(s[i]) || IsDigit(s[i]) || s[i] == '+' || s[i] == '-' || s[i] == '.'
  }

  /** The host and port of an authority without user information. */
  function SplitAuthority(s: string): Option<(string, string)> {
    var colon := AfterLast(s, ':');
    if s != "" && s[0] == '[' then
      var close := AfterLast(s, ']');
      if close == 0 then None
      else if close == |s| then Some((s[1..close - 1], ""))
      else if s[close] != ':' || !AllDigits(s[close + 1..]) then None
      else Some((s[1..close - 1], s[close + 1..]))
    else if colon == 0 then Some((s, ""))
    else if !AllDigits(s[colon..]) then None
    else Some((s[..colon - 1], s[colon..]))
  }

  function Cut(s: string, c: char): (string, string) {
    (s[..IndexOf(s, c)], s[IndexOf(s, c)..])
  }

  /** scheme "://" authority path, with query and fragment behind it. */
  function ParseUrl(raw: string): Option<Url> {
    var (front, fragment) := Cut(raw, '#');
    var (base, query) := Cut(front, '?');
    var (scheme, rest) := Cut(base, ':');
    if !SchemeOk(scheme) || !HasPrefix(rest, "://") then None
    else
      var (authority, path) := Cut(rest[3..], '/');
      var at := AfterLast(authority, '@');
      match SplitAuthority(authority[at..])
      case None => None
      case Some((host, port)) => Some(Url(Lower(scheme), at > 0, host, port, path, query, |fragment| > 1))
  }

  // ---- the parser ----

  /** What the input says: host, port, resource and the service its scheme names. */
  datatype Intent = Intent(host: string, port: Option<nat>, resource: string, service: Option<string>)

  function IntentOfUrl(raw: string): Result<Intent> {
    match ParseUrl(raw)
    case None => Failed
    case Some(url) =>
      if ProfileForScheme(url.scheme).None? || url.user || url.host == "" || url.fragment then Failed
      else if url.port != "" && ParsePort(url.port).None? then Failed
      else Ok(Intent(url.host, ParsePort(url.port), url.path + (if |url.query| > 1 then url.query else ""), ProfileForScheme(url.scheme)))
  }

  function IntentOfHost(env: Env, raw: string): Result<Intent> {
    match ParseHostInput(env, raw)
    case Failed => Failed
    case Ok((host, port)) => Ok(Intent(host, port, "", None))
  }

  predicate LooksLikeHostPort(raw: string) {
    var i := IndexOf(raw, ':');
    Occurrences(raw, ':') == 1 && Without(raw, '/') && Without(raw, '\\') && 0 < i < |raw| - 1 && Lower(raw[..i]) != "javascript"
  }

  predicate HasUriScheme(raw: string) {
    var i := IndexOf(raw, ':');
    0 < i < |raw| && SchemeOk(raw[..i])
  }

  function IntentOf(env: Env, raw: string): Result<Intent> {
    if env.normal(raw).None? && (ContainsSlashes(raw) || (HasUriScheme(raw) && !LooksLikeHostPort(raw))) then IntentOfUrl(raw)
    else IntentOfHost(env, raw)
  }

  /** `ParseTarget` of an input that is not a UNC path, with an optional explicit service and port. */
  function ParseTarget(env: Env, raw: string, service: Option<string>, port: Option<nat>): Result<Parsed>
    requires raw != "" ==> raw[0] != '\\'
  {
    if raw == "" || IsSpace(raw[0]) || IsSpace(raw[|raw| - 1]) then Failed
    else if exists i :: 0 <= i < |raw| && IsControl(raw[i]) then Failed
    else
      match IntentOf(env, raw)
      case Failed => Failed
      case Ok(found) => Completed(env, found, service, port)
  }

  /** The part of `ParseTarget` behind the branches: canonical identity, service and port. */
  function Completed(env: Env, found: Intent, service: Option<string>, port: Option<nat>): Result<Parsed> {
    match Canonical(env, found.host)
    case Failed => Failed
    case Ok((identity, literal)) =>
      if service.Some? && service.value !in SERVICES then Failed
      else if service.Some? && found.service.Some? && found.service != service then Failed
      else
        var profile := if service.Some? then service.value else if found.service.Some? then found.service.value else HTTP;
        if port.Some? && (port.value == 0 || port.value > 65535) then Failed
        else if port.Some? && found.port.Some? && found.port != port then Failed
        else
          var chosen := if port.Some? then port.value else if found.port.Some? then found.port.value else DefaultPort(profile);
          if chosen == 0 then Failed else Ok(Parsed(identity, literal, profile, chosen, found.resource))
  }

  // ---- what is assumed of addresses ----

  predicate AddressChar(c: char) {
    c == ':' || c == '.' || IsDigit(c) || 'a' <= c <= 'f' || 'A' <= c <= 'F'
  }

  predicate ZoneFree(s: string) {
    forall i :: 0 <= i < |s| ==> AddressChar(s[i])
  }

  /**
   Texts of addresses: address characters, or a zone behind a percent sign; never a single colon;
   an address without a colon is spelled in one way only; normal forms are addresses in normal form.
   */
  ghost predicate Addresses(env: Env) {
    forall s ::
      && (env.spell(s).Some? <==> env.normal(s).Some?)
      && (env.normal(s).Some? ==>
            && s != "" && ('%' in s || ZoneFree(s)) && Occurrences(s, ':') != 1
            && (Without(s, ':') ==> env.normal(s).value == s)
            && env.normal(env.normal(s).value) == env.normal(s)
            && (ZoneFree(s) ==> ZoneFree(env.normal(s).value) && env.normal(s).value != ""))
  }

  /** An identity that the parser gives out for some ASCII host without a zone. */
  ghost predicate Accepted(env: Env, identity: string) {
    exists host :: Ascii(host) && Without(host, '%') && Canonical(env, host).Ok? && Canonical(env, host).value.0 == identity
  }

  predicate Ascii(s: string) {
    forall i :: 0 <= i < |s| ==> s[i] < 128 as char
  }

  // ---- ports round trip ----

  /** Exactly the decimal strings of 1 to 65535, with any leading zeros, are ports. */
  lemma PortRoundTrip(port: nat)
    ensures ParsePort(Dec(port)) == if 1 <= port <= 65535 then Some(port) else None
  {
    ValueOfDec(port);
    assert AllDigits(Dec(port));
  }

  // ---- identities ----

  predicate IdentityChar(c: char) {
    c == '-' || c == '_' || c == '.' || c == ':' || 'a' <= c <= 'z' || 'A' <= c <= 'F' || IsDigit(c)
  }

  predicate IdentityText(s: string) {
    s != "" && forall i :: 0 <= i < |s| ==> IdentityChar(s[i])
  }

  lemma {:induction false} LabelsAreText(host: string)
    requires ValidLabels(host) && Ascii(host)
    ensures host != "" && host[|host| - 1] != '.' && forall i :: 0 <= i < |host| ==> IdentityChar(host[i]) && host[i] != ':'
  {
    var i := IndexOf(host, '.');
    if i < |host| {
      var rest := host[i + 1..];
      assert forall j :: 0 <= j < |rest| ==> rest[j] == host[i + 1 + j];
      LabelsAreText(rest);
      forall j | 0 <= j < |host| ensures IdentityChar(host[j]) && host[j] != ':' {
        if j < i {
          assert host[..i][j] == host[j];
        } else if j > i {
          assert host[j] == rest[j - i - 1];
        }
      }
    } else {
      assert host[..i] == host;
    }
  }

  lemma LowerTwice(s: string)
    ensures Lower(Lower(s)) == Lower(s)
  {
  }

  lemma LowerAscii(s: string)
    requires Ascii(s)
    ensures Ascii(Lower(s))
  {
  }

  /** The identity of an accepted host, the address case and the name case. */
  lemma IdentityOfAddress(env: Env, host: string)
    requires Addresses(env) && env.normal(host).Some? && Without(host, '%') && Canonical(env, host).Ok?
    ensures var h := Canonical(env, host).value.0;
            IdentityText(h) && ZoneFree(h) && env.normal(h) == Some(h)
  {
    assert ZoneFree(host);
    var h := env.normal(host).value;
    assert ZoneFree(h);
    assert forall i :: 0 <= i < |h| ==> AddressChar(h[i]) && IdentityChar(h[i]);
  }

  /** A trimmed, lower-cased name. */
  predicate NameText(h: string) {
    |h| <= 253 && IdentityText(h) && Without(h, ':') && h[|h| - 1] != '.' && ValidLabels(h) && Lower(h) == h
  }

  lemma IdentityOfName(env: Env, host: string)
    requires env.normal(host).None? && Ascii(host) && Canonical(env, host).Ok?
    ensures NameText(Canonical(env, host).value.0) && Canonical(env, host).value == (Lower(Trimmed(host)), "")
  {
    assert Ascii(Trimmed(host));
    NameIsText(Trimmed(host));
  }

  lemma NameIsText(trimmed: string)
    requires Ascii(trimmed) && |trimmed| <= 253 && ValidLabels(Lower(trimmed))
    ensures NameText(Lower(trimmed))
  {
    LowerTwice(trimmed);
    LowerAscii(trimmed);
    LabelsAreText(Lower(trimmed));
  }

  lemma NoSpaces(h: string)
    requires IdentityText(h)
    ensures forall i :: 0 <= i < |h| ==> !IsSpace(h[i]) && !IsControl(h[i])
    ensures forall c :: c in h ==> IdentityChar(c)
  {
  }

  lemma CanonicalOfAddress(env: Env, h: string)
    requires IdentityText(h) && env.normal(h) == Some(h)
    ensures Canonical(env, h) == Ok((h, h))
  {
    NoSpaces(h);
  }

  lemma CanonicalOfName(env: Env, h: string)
    requires Addresses(env) && NameText(h)
    ensures Canonical(env, h).Ok? && Canonical(env, h).value.0 == h
  {
    NoSpaces(h);
    if env.normal(h).Some? {
      assert env.normal(h).value == h;
    }
  }

  /** The identity part of canonicalization is idempotent. */
  lemma CanonicalIsIdempotent(env: Env, identity: string)
    requires Addresses(env) && Accepted(env, identity)
    ensures IdentityText(identity) && (Without(identity, ':') || (ZoneFree(identity) && env.normal(identity) == Some(identity)))
    ensures Canonical(env, identity).Ok? && Canonical(env, identity).value.0 == identity
  {
    var host :| Ascii(host) && Without(host, '%') && Canonical(env, host).Ok? && Canonical(env, host).value.0 == identity;
    if env.normal(host).Some? {
      IdentityOfAddress(env, host);
      CanonicalOfAddress(env, identity);
    } else {
      IdentityOfName(env, host);
      CanonicalOfName(env, identity);
    }
  }

  /** An environment with one address. */
  const ONE_ADDRESS: Env :=
    Env(s => if s == "1.2.3.4" then Some(s) else None, s => if s == "1.2.3.4" then Some(s) else None)

  lemma OneAddressIsLawful()
    ensures Addresses(ONE_ADDRESS)
  {
    assert Occurrences("1.2.3.4", ':') == 0 by {
      NoneOccurs("1.2.3.4", ':');
    }
  }

  lemma {:induction false} NoneOccurs(s: string, c: char)
    requires forall i :: 0 <= i < |s| ==> s[i] != c
    ensures Occurrences(s, c) == 0
  {
    if s != "" {
      NoneOccurs(s[1..], c);
    }
  }

  lemma LabelThenDot(part: string, rest: string)
    requires ValidLabel(part) && Without(part, '.') && ValidLabels(rest)
    ensures ValidLabels(part + "." + rest)
  {
    var s := part + "." + rest;
    FirstAt(s, '.', |part|);
    assert s[..|part|] == part && s[|part| + 1..] == rest;
  }

  lemma DigitThenDot(digit: char, rest: string)
    requires IsDigit(digit) && ValidLabels(rest)
    ensures ValidLabels([digit] + "." + rest)
  {
    LabelThenDot([digit], rest);
  }

  lemma DigitIsLabel(digit: char)
    requires IsDigit(digit)
    ensures ValidLabels([digit])
  {
    FirstAt([digit], '.', 1);
    assert [digit][..1] == [digit];
  }

  lemma DottedIsName(a: string)
    requires a == "1.2.3.4"
    ensures ValidLabels(a)
  {
    var (b, c, d) := (a[2..], a[4..], a[6..]);
    DigitIsLabel('4');
    assert d == ['4'];
    DigitThenDot('3', d);
    assert c == ['3'] + "." + d;
    DigitThenDot('2', c);
    assert b == ['2'] + "." + c;
    DigitThenDot('1', b);
    assert a == ['1'] + "." + b;
  }

  lemma DottedIsLower(a: string)
    requires a == "1.2.3.4"
    ensures Lower(a) == a
  {
  }

  lemma DottedIsLost(host: string, a: string)
    requires a == "1.2.3.4" && host == a + "."
    ensures Canonical(ONE_ADDRESS, host) == Ok((a, "")) && Canonical(ONE_ADDRESS, a) == Ok((a, a))
  {
    DottedIsName(a);
    DottedIsLower(a);
    assert |host| == 8 && host[7] == '.' && host[..7] == a;
    assert Trimmed(host) == a;
    assert forall i :: 0 <= i < |host| ==> host[i] == '.' || '1' <= host[i] <= '4';
  }

  /** A host for which it is lost: the dotted address with a final dot. */
  lemma LiteralIsLost()
    ensures Addresses(ONE_ADDRESS)
    ensures Canonical(ONE_ADDRESS, "1.2.3.4" + ".") == Ok(("1.2.3.4", ""))
    ensures Canonical(ONE_ADDRESS, "1.2.3.4") == Ok(("1.2.3.4", "1.2.3.4"))
  {
    OneAddressIsLawful();
    DottedIsLost("1.2.3.4" + ".", "1.2.3.4");
  }

  lemma LiteralOfName(env: Env, h: string)
    requires Addresses(env) && NameText(h)
    ensures Canonical(env, h) == Ok((h, "")) <==> env.normal(h).None?
  {
    NoSpaces(h);
    if env.normal(h).Some? {
      assert env.normal(h).value == h && h != "";
    }
  }

  /**
   The literal part is not.  It is lost exactly for a host that is no address itself but becomes
   one in lower case without its final dot: then a second pass finds the address.
   */
  lemma LiteralIsIdempotentIff(env: Env, host: string)
    requires Addresses(env) && Ascii(host) && Without(host, '%') && Canonical(env, host).Ok?
    ensures var (identity, literal) := Canonical(env, host).value;
            if env.normal(host).None? && env.normal(Lower(Trimmed(host))).Some?
            then literal == "" && Canonical(env, identity) == Ok((identity, identity)) && identity != ""
            else Canonical(env, identity) == Ok((identity, literal))
  {
    var identity := Canonical(env, host).value.0;
    if env.normal(host).Some? {
      IdentityOfAddress(env, host);
      CanonicalOfAddress(env, identity);
      assert Canonical(env, host) == Ok((identity, identity));
    } else {
      IdentityOfName(env, host);
      LiteralOfName(env, identity);
      if env.normal(identity).Some? {
        CanonicalOfAddress(env, identity);
      }
    }
  }

  // ---- the round trip ----

  lemma FirstAt(s: string, c: char, i: nat)
    requires i <= |s| && (i < |s| ==> s[i] == c) && forall j :: 0 <= j < i ==> s[j] != c
    ensures IndexOf(s, c) == i
  {
    assert !(IndexOf(s, c) < i) && !(i < IndexOf(s, c));
  }

  lemma LastAt(s: string, c: char, i: nat)
    requires i <= |s| && (i > 0 ==> s[i - 1] == c) && forall j :: i <= j < |s| ==> s[j] != c
    ensures AfterLast(s, c) == i
  {
    assert !(AfterLast(s, c) > i) && !(i > AfterLast(s, c));
  }

  lemma Digits(port: nat)
    ensures AllDigits(Dec(port)) && Dec(port) != "" && forall c :: c in Dec(port) ==> IsDigit(c)
  {
  }

  /** Splitting what JoinHostPort joined: an address in brackets ... */
  lemma BracketsSplit(h: string, d: string)
    requires AllDigits(d)
    ensures SplitAuthority("[" + h + "]:" + d) == Some((h, d))
  {
    var s := "[" + h + "]:" + d;
    assert s[|h| + 1] == ']' && s[|h| + 2] == ':';
    forall j | |h| + 2 <= j < |s| ensures s[j] != ']' {
      assert j > |h| + 2 ==> s[j] == d[j - |h| - 3];
    }
    LastAt(s, ']', |h| + 2);
    assert s[|h| + 3..] == d && s[1..|h| + 1] == h;
  }

  /** ... or a name. */
  lemma NameSplits(h: string, d: string)
    requires h != "" && h[0] != '[' && AllDigits(d)
    ensures SplitAuthority(h + ":" + d) == Some((h, d))
  {
    var s := h + ":" + d;
    assert s[0] == h[0] && s[|h|] == ':';
    forall j | |h| + 1 <= j < |s| ensures s[j] != ':' {
      assert s[j] == d[j - |h| - 1];
    }
    LastAt(s, ':', |h| + 1);
    assert s[|h| + 1..] == d && s[..|h|] == h;
  }

  lemma AuthoritySplits(h: string, port: nat)
    requires IdentityText(h)
    ensures SplitAuthority(JoinHostPort(h, port)) == Some((h, Dec(port)))
  {
    Digits(port);
    if ':' in h {
      BracketsSplit(h, Dec(port));
    } else {
      assert IdentityChar(h[0]);
      NameSplits(h, Dec(port));
    }
  }

  /** No character of the authority ends it. */
  lemma AuthorityChars(h: string, port: nat)
    requires IdentityText(h)
    ensures AuthorityText(JoinHostPort(h, port))
  {
    Digits(port);
  }

  predicate RegisteredScheme(s: string) {
    s in {"http", "https", "smb", "rdp", "ssh", "dns", "tcp", "tls"}
  }

  lemma SchemesAre(service: string)
    requires service in SERVICES
    ensures RegisteredScheme(Scheme(service)) && ProfileForScheme(Scheme(service)) == Some(service)
  {
  }

  lemma SchemeText(s: string)
    requires RegisteredScheme(s)
    ensures SchemeOk(s) && Lower(s) == s && |s| >= 3 && forall i :: 0 <= i < |s| ==> 'a' <= s[i] <= 'z'
  {
  }

  lemma CutNothing(s: string, c: char)
    requires c !in s
    ensures Cut(s, c) == (s, "")
  {
    FirstAt(s, c, |s|);
    assert s[..|s|] == s && s[|s|..] == "";
  }

  lemma CutFront(a: string, c: char, b: string)
    requires c !in a && b != "" && b[0] == c
    ensures Cut(a + b, c) == (a, b)
  {
    FirstAt(a + b, c, |a|);
    assert (a + b)[..|a|] == a && (a + b)[|a|..] == b;
  }

  predicate AuthorityText(s: string) {
    s != "" && forall i :: 0 <= i < |s| ==> IdentityChar(s[i]) || s[i] == '[' || s[i] == ']'
  }

  lemma RawHasNo(scheme: string, authority: string, c: char)
    requires RegisteredScheme(scheme) && AuthorityText(authority) && (c == '#' || c == '?' || c == '%')
    ensures c !in scheme + "://" + authority && c !in authority
  {
    SchemeText(scheme);
  }

  lemma SchemeCuts(scheme: string, authority: string)
    requires RegisteredScheme(scheme) && AuthorityText(authority)
    ensures var raw := scheme + "://" + authority;
            Cut(raw, '#') == (raw, "") && Cut(raw, '?') == (raw, "") && Cut(raw, ':') == (scheme, "://" + authority)
  {
    var raw := scheme + "://" + authority;
    SchemeText(scheme);
    RawHasNo(scheme, authority, '#');
    RawHasNo(scheme, authority, '?');
    CutNothing(raw, '#');
    CutNothing(raw, '?');
    assert raw == scheme + ("://" + authority);
    CutFront(scheme, ':', "://" + authority);
  }

  lemma AuthorityCuts(authority: string)
    requires AuthorityText(authority)
    ensures ("://" + authority)[3..] == authority && HasPrefix("://" + authority, "://")
    ensures Cut(authority, '/') == (authority, "") && AfterLast(authority, '@') == 0 && authority[0..] == authority
  {
    CutNothing(authority, '/');
    LastAt(authority, '@', 0);
  }

  /** A URL of scheme and authority comes apart again. */
  lemma UrlSplits(scheme: string, authority: string, host: string, port: string)
    requires RegisteredScheme(scheme) && AuthorityText(authority)
    requires SplitAuthority(authority) == Some((host, port))
    ensures ParseUrl(scheme + "://" + authority) == Some(Url(scheme, false, host, port, "", "", false))
  {
    SchemeText(scheme);
    SchemeCuts(scheme, authority);
    AuthorityCuts(authority);
  }

  lemma RawIsUrl(env: Env, scheme: string, authority: string)
    requires Addresses(env) && RegisteredScheme(scheme) && AuthorityText(authority)
    ensures env.normal(scheme + "://" + authority).None? && ContainsSlashes(scheme + "://" + authority)
  {
    var raw := scheme + "://" + authority;
    assert raw[|scheme|] == ':' && raw[|scheme| + 1] == '/' && raw[|scheme| + 2] == '/';
    assert !AddressChar(raw[|scheme| + 1]);
    RawHasNo(scheme, authority, '%');
  }

  lemma RawIsPlain(scheme: string, authority: string)
    requires RegisteredScheme(scheme) && AuthorityText(authority)
    ensures var raw := scheme + "://" + authority;
            && !IsSpace(raw[0]) && !IsSpace(raw[|raw| - 1]) && raw[0] != '\\'
            && forall i :: 0 <= i < |raw| ==> !IsControl(raw[i])
  {
    var raw := scheme + "://" + authority;
    SchemeText(scheme);
    assert raw[0] == scheme[0] && raw[|raw| - 1] == authority[|authority| - 1];
    forall i | 0 <= i < |raw| ensures !IsControl(raw[i]) {
      if i < |scheme| {
        assert raw[i] == scheme[i];
      } else if i < |scheme| + 3 {
        assert raw[i] == "://"[i - |scheme|];
      } else {
        assert raw[i] == authority[i - |scheme| - 3];
      }
    }
  }

  lemma IntentIs(raw: string, scheme: string, service: string, host: string, text: string, port: nat)
    requires ParseUrl(raw) == Some(Url(scheme, false, host, text, "", "", false)) && host != ""
    requires ProfileForScheme(scheme) == Some(service) && ParsePort(text) == Some(port)
    ensures IntentOfUrl(raw) == Ok(Intent(host, Some(port), "", Some(service)))
  {
    assert "" + "" == "";
  }

  lemma IntentRoundTrip(identity: string, service: string, port: nat)
    requires IdentityText(identity) && service in SERVICES && 1 <= port <= 65535
    requires AuthorityText(JoinHostPort(identity, port))
    ensures IntentOfUrl(Scheme(service) + "://" + JoinHostPort(identity, port)) == Ok(Intent(identity, Some(port), "", Some(service)))
  {
    var scheme, authority := Scheme(service), JoinHostPort(identity, port);
    SchemesAre(service);
    AuthoritySplits(identity, port);
    UrlSplits(scheme, authority, identity, Dec(port));
    PortRoundTrip(port);
    IntentIs(scheme + "://" + authority, scheme, service, identity, Dec(port), port);
  }

  /** What a printed target is when it is read as it stands. */
  lemma ParsedAsUrl(env: Env, raw: string, found: Intent)
    requires raw != "" && raw[0] != '\\' && !IsSpace(raw[0]) && !IsSpace(raw[|raw| - 1])
    requires forall i :: 0 <= i < |raw| ==> !IsControl(raw[i])
    requires env.normal(raw).None? && ContainsSlashes(raw) && IntentOfUrl(raw) == Ok(found)
    ensures IntentOf(env, raw) == Ok(found) && ParseTarget(env, raw, None, None) == Completed(env, found, None, None)
  {
  }

  lemma PrintedIs(identity: string, service: string, port: nat)
    requires Scheme(service) != ""
    ensures TargetIdentity(identity, service, port) == Scheme(service) + "://" + JoinHostPort(identity, port)
  {
  }

  /** Nothing is asked for that differs. */
  predicate Agrees(service: Option<string>, port: Option<nat>, parsed: Parsed) {
    (service.Some? ==> service.value == parsed.service) && (port.Some? ==> port.value == parsed.port)
  }

  /**
   An input that names its service and port is accepted together with an explicit service or port
   exactly when these agree with it, and then they change nothing.
   */
  lemma ConflictsAreRefused(env: Env, raw: string, service: Option<string>, port: Option<nat>)
    requires (raw != "" ==> raw[0] != '\\') && ParseTarget(env, raw, None, None).Ok?
    requires IntentOf(env, raw).value.service.Some? && IntentOf(env, raw).value.port.Some?
    ensures var parsed := ParseTarget(env, raw, None, None);
            ParseTarget(env, raw, service, port) == if Agrees(service, port, parsed.value) then parsed else Failed
  {
    var found := IntentOf(env, raw).value;
    ServicesAreRegistered(env, raw);
    assert 1 <= found.port.value <= 65535;
    assert ParseTarget(env, raw, service, port) == Completed(env, found, service, port);
  }

  lemma ServicesAreRegistered(env: Env, raw: string)
    requires IntentOf(env, raw).Ok?
    ensures var found := IntentOf(env, raw).value;
            (found.service.Some? ==> found.service.value in SERVICES) && (found.port.Some? ==> 1 <= found.port.value <= 65535)
  {
    if IntentOfUrl(raw).Ok? {
      UrlServiceIsRegistered(raw);
    }
    if IntentOfHost(env, raw).Ok? {
      HostPortIsPort(env, raw);
    }
  }

  lemma UrlServiceIsRegistered(raw: string)
    requires IntentOfUrl(raw).Ok?
    ensures var found := IntentOfUrl(raw).value;
            found.service.Some? && found.service.value in SERVICES && (found.port.Some? ==> 1 <= found.port.value <= 65535)
  {
  }

  lemma HostPortIsPort(env: Env, raw: string)
    requires IntentOfHost(env, raw).Ok?
    ensures var found := IntentOfHost(env, raw).value;
            found.service.None? && (found.port.Some? ==> 1 <= found.port.value <= 65535)
  {
  }

  lemma PrintedReads(env: Env, identity: string, service: string, port: nat)
    requires Addresses(env) && Accepted(env, identity) && service in SERVICES && 1 <= port <= 65535
    ensures var raw, found := TargetIdentity(identity, service, port), Intent(identity, Some(port), "", Some(service));
            && raw != "" && raw[0] != '\\'
            && IntentOf(env, raw) == Ok(found) && ParseTarget(env, raw, None, None) == Completed(env, found, None, None)
  {
    var authority := JoinHostPort(identity, port);
    CanonicalIsIdempotent(env, identity);
    SchemesAre(service);
    SchemeText(Scheme(service));
    AuthorityChars(identity, port);
    RawIsUrl(env, Scheme(service), authority);
    RawIsPlain(Scheme(service), authority);
    IntentRoundTrip(identity, service, port);
    PrintedIs(identity, service, port);
    ParsedAsUrl(env, TargetIdentity(identity, service, port), Intent(identity, Some(port), "", Some(service)));
  }

  lemma PrintedParses(env: Env, identity: string, service: string, port: nat)
    requires Addresses(env) && Accepted(env, identity) && service in SERVICES && 1 <= port <= 65535
    ensures var raw := TargetIdentity(identity, service, port);
            && raw != "" && raw[0] != '\\'
            && IntentOf(env, raw) == Ok(Intent(identity, Some(port), "", Some(service)))
            && var parsed := ParseTarget(env, raw, None, None);
            && parsed.Ok? && parsed.value.identity == identity && parsed.value.service == service && parsed.value.port == port
            && parsed.value.resource == ""
  {
    PrintedReads(env, identity, service, port);
    CanonicalIsIdempotent(env, identity);
  }

  /**
   Print and parse: for every identity the parser gives out, every registered service and every
   port, parsing TargetIdentity together with any explicit service and port succeeds exactly when
   these do not conflict with the printed ones, and gives back identity, service and port.
   */
  lemma IdentityRoundTrip(env: Env, identity: string, service: string, port: nat, asked: Option<string>, askedPort: Option<nat>)
    requires Addresses(env) && Accepted(env, identity) && service in SERVICES && 1 <= port <= 65535
    ensures var raw := TargetIdentity(identity, service, port);
            && raw != "" && raw[0] != '\\'
            && var parsed := ParseTarget(env, raw, asked, askedPort);
            && (parsed.Ok? <==> (asked.Some? ==> asked.value == service) && (askedPort.Some? ==> askedPort.value == port))
            && (parsed.Ok? ==> parsed.value.identity == identity && parsed.value.service == service && parsed.value.port == port
                               && parsed.value.resource == "")
  {
    PrintedParses(env, identity, service, port);
    ConflictsAreRefused(env, TargetIdentity(identity, service, port), asked, askedPort);
  }
}
