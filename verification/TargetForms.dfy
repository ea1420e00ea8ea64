/**
 What the forms of a target come to (internal/model/target.go:143-172, 339-465, 482-636): a scheme
 or its absence decides service and port, a resource is kept, user information and fragments are
 refused, names are made of labels.
 */
module TargetForms {
  import opened Decimal
  import opened Options
  import opened Targets
  import opened TargetParsers

  // ---- whatever is accepted ----

  /** A parsed target has a registered service and a port, and those that were asked for. */
  lemma ParsedIsValid(env: Env, raw: string, service: Option<string>, port: Option<nat>)
    requires (raw != "" ==> raw[0] != '\\') && ParseTarget(env, raw, service, port).Ok?
    ensures var parsed := ParseTarget(env, raw, service, port).value;
            && parsed.service in {"http", "https", "smb", "rdp", "ssh", "dns", "custom_tcp", "custom_tls"} && 1 <= parsed.port <= 65535
            && (service.Some? ==> parsed.service == service.value) && (port.Some? ==> parsed.port == port.value)
    ensures raw != "" && !IsSpace(raw[0]) && !IsSpace(raw[|raw| - 1]) && forall i :: 0 <= i < |raw| ==> !IsControl(raw[i])
  {
    ServicesAreRegistered(env, raw);
    CompletedIsValid(env, IntentOf(env, raw).value, service, port);
  }

  lemma CompletedIsValid(env: Env, found: Intent, service: Option<string>, port: Option<nat>)
    requires Completed(env, found, service, port).Ok?
    requires (found.service.Some? ==> found.service.value in SERVICES) && (found.port.Some? ==> 1 <= found.port.value <= 65535)
    ensures var parsed := Completed(env, found, service, port).value;
            && parsed.service in {"http", "https", "smb", "rdp", "ssh", "dns", "custom_tcp", "custom_tls"} && 1 <= parsed.port <= 65535
            && (service.Some? ==> parsed.service == service.value) && (port.Some? ==> parsed.port == port.value)
  {
    DefaultPortsFit();
  }

  lemma DefaultPortsFit()
    ensures forall s :: DefaultPort(s) <= 65535
  {
  }

  // ---- schemes ----

  /** The service of a scheme and its usual port; two services have none. */
  function Usual(scheme: string): (string, nat) {
    if scheme == "http" then ("http", 80)
    else if scheme == "https" then ("https", 443)
    else if scheme == "smb" then ("smb", 445)
    else if scheme == "rdp" then ("rdp", 3389)
    else if scheme == "ssh" then ("ssh", 22)
    else if scheme == "dns" then ("dns", 53)
    else if scheme == "tcp" then ("custom_tcp", 0)
    else ("custom_tls", 0)
  }

  lemma UsualIs(scheme: string)
    requires RegisteredScheme(scheme)
    ensures ProfileForScheme(scheme) == Some(Usual(scheme).0)
    ensures DefaultPort(Usual(scheme).0) == Usual(scheme).1
  {
  }

  /** A host as an authority without a port. */
  function HostText(h: string): string {
    if ':' in h then "[" + h + "]" else h
  }

  lemma BracketsClose(h: string)
    ensures SplitAuthority("[" + h + "]") == Some((h, ""))
  {
    var s := "[" + h + "]";
    assert s[0] == '[' && s[|s| - 1] == ']';
    LastAt(s, ']', |s|);
    assert s[1..|s| - 1] == h;
  }

  lemma HostSplits(h: string)
    requires IdentityText(h)
    ensures SplitAuthority(HostText(h)) == Some((h, "")) && AuthorityText(HostText(h))
  {
    if ':' in h {
      BracketsClose(h);
    } else {
      LastAt(h, ':', 0);
      assert IdentityChar(h[0]);
    }
  }

  lemma SchemeReads(env: Env, scheme: string, h: string)
    requires Addresses(env) && Accepted(env, h) && RegisteredScheme(scheme)
    ensures var raw, found := scheme + "://" + HostText(h), Intent(h, None, "", Some(Usual(scheme).0));
            raw != "" && raw[0] != '\\' && IntentOf(env, raw) == Ok(found) && ParseTarget(env, raw, None, None) == Completed(env, found, None, None)
  {
    var authority := HostText(h);
    CanonicalIsIdempotent(env, h);
    UsualIs(scheme);
    SchemeText(scheme);
    HostSplits(h);
    RawIsUrl(env, scheme, authority);
    RawIsPlain(scheme, authority);
    UrlSplits(scheme, authority, h, "");
    PortlessIntent(scheme + "://" + authority, scheme, h);
    ParsedAsUrl(env, scheme + "://" + authority, Intent(h, None, "", Some(Usual(scheme).0)));
  }

  lemma PortlessIntent(raw: string, scheme: string, h: string)
    requires RegisteredScheme(scheme) && h != "" && ParseUrl(raw) == Some(Url(scheme, false, h, "", "", "", false))
    ensures IntentOfUrl(raw) == Ok(Intent(h, None, "", Some(Usual(scheme).0)))
  {
    UsualIs(scheme);
    assert "" + "" == "";
  }

  /** A scheme in front of an accepted identity decides the service and the port; without a usual port there is no target. */
  lemma SchemeDecides(env: Env, scheme: string, h: string)
    requires Addresses(env) && Accepted(env, h) && RegisteredScheme(scheme)
    ensures var raw := scheme + "://" + HostText(h);
            raw != "" && raw[0] != '\\' &&
            var parsed := ParseTarget(env, raw, None, None);
            && (parsed.Ok? <==> scheme != "tcp" && scheme != "tls")
            && (parsed.Ok? ==> parsed.value.identity == h && (parsed.value.service, parsed.value.port) == Usual(scheme) && parsed.value.resource == "")
  {
    SchemeReads(env, scheme, h);
    CanonicalIsIdempotent(env, h);
    UsualIs(scheme);
    CompletedAsUsual(env, h, scheme);
  }

  lemma CompletedAsUsual(env: Env, h: string, scheme: string)
    requires RegisteredScheme(scheme) && Canonical(env, h).Ok? && Canonical(env, h).value.0 == h
    ensures var parsed := Completed(env, Intent(h, None, "", Some(Usual(scheme).0)), None, None);
            && (parsed.Ok? <==> scheme != "tcp" && scheme != "tls")
            && (parsed.Ok? ==> parsed.value.identity == h && (parsed.value.service, parsed.value.port) == Usual(scheme) && parsed.value.resource == "")
  {
    UsualIs(scheme);
    assert scheme == "tcp" || scheme == "tls" <==> Usual(scheme).1 == 0;
  }

  // ---- hosts without a scheme ----

  /** A name as the parser gives it out, which is no address. */
  ghost predicate PlainName(env: Env, h: string) {
    NameText(h) && env.normal(h).None?
  }

  lemma NameReads(env: Env, h: string)
    requires Addresses(env) && PlainName(env, h)
    ensures IntentOf(env, h) == Ok(Intent(h, None, "", None)) && Canonical(env, h) == Ok((h, ""))
    ensures !IsSpace(h[0]) && !IsSpace(h[|h| - 1]) && h[0] != '\\' && forall i :: 0 <= i < |h| ==> !IsControl(h[i])
  {
    NoSpaces(h);
    FirstAt(h, ':', |h|);
    LastAt(h, ':', 0);
    CanonicalOfName(env, h);
    assert IdentityChar(h[0]) && IdentityChar(h[|h| - 1]);
    assert !ContainsSlashes(h);
  }

  /** A name alone is a web server on port 80, or the service that is asked for on its usual port. */
  lemma NameAlone(env: Env, h: string, service: Option<string>)
    requires Addresses(env) && PlainName(env, h) && (service.Some? ==> service.value in SERVICES)
    ensures h != "" && h[0] != '\\'
    ensures ParseTarget(env, h, service, None) ==
              if service.None? then Ok(Parsed(h, "", "http", 80, ""))
              else if DefaultPort(service.value) == 0 then Failed else Ok(Parsed(h, "", service.value, DefaultPort(service.value), ""))
  {
    NameReads(env, h);
  }

  lemma OneColon(h: string, d: string)
    requires Without(h, ':') && Without(d, ':')
    ensures Occurrences(h + ":" + d, ':') == 1
  {
    NoneOccurs(h, ':');
    NoneOccurs(d, ':');
    OccurrencesAppend(h, ":" + d, ':');
    assert (":" + d)[1..] == d;
    assert h + ":" + d == h + (":" + d);
  }

  lemma {:induction false} OccurrencesAppend(a: string, b: string, c: char)
    ensures Occurrences(a + b, c) == Occurrences(a, c) + Occurrences(b, c)
    decreases |a|
  {
    if a == "" {
      assert a + b == b;
    } else {
      OccurrencesAppend(a[1..], b, c);
      assert (a + b)[1..] == a[1..] + b;
    }
  }

  /** Where the one colon of a name with a port is. */
  lemma PortedShape(h: string, d: string)
    requires IdentityText(h) && Without(h, ':') && AllDigits(d) && d != ""
    ensures var raw := h + ":" + d;
            && IndexOf(raw, ':') == |h| && AfterLast(raw, ':') == |h| + 1 && Occurrences(raw, ':') == 1
            && raw[..|h|] == h && raw[|h| + 1..] == d && |raw| == |h| + 1 + |d|
            && '/' !in raw && '\\' !in raw && '[' !in raw && ']' !in raw
  {
    var raw := h + ":" + d;
    assert Without(d, ':');
    OneColon(h, d);
    assert raw[|h|] == ':';
    FirstAt(raw, ':', |h|);
    forall j | |h| + 1 <= j < |raw| ensures raw[j] != ':' {
      assert raw[j] == d[j - |h| - 1];
    }
    LastAt(raw, ':', |h| + 1);
    assert forall c :: c in raw ==> c in h || c == ':' || c in d;
  }

  lemma PortedPlain(h: string, d: string)
    requires IdentityText(h) && AllDigits(d) && d != ""
    ensures var raw := h + ":" + d;
            !IsSpace(raw[0]) && !IsSpace(raw[|raw| - 1]) && raw[0] != '\\' && forall i :: 0 <= i < |raw| ==> !IsControl(raw[i])
  {
    NoSpaces(h);
    var raw := h + ":" + d;
    assert raw[0] == h[0] && raw[|raw| - 1] == d[|d| - 1];
    forall i | 0 <= i < |raw| ensures !IsControl(raw[i]) {
      if i < |h| {
        assert raw[i] == h[i];
      } else if i > |h| {
        assert raw[i] == d[i - |h| - 1];
      }
    }
  }

  lemma PortedSplits(h: string, d: string)
    requires IdentityText(h) && Without(h, ':') && AllDigits(d) && d != ""
    ensures SplitHostPort(h + ":" + d) == Some((h, d))
  {
    PortedShape(h, d);
    assert (h + ":" + d)[0] == h[0] && IdentityChar(h[0]);
    assert (h + ":" + d)[..|h| + 1 - 1] == h;
  }

  lemma PortedReads(env: Env, h: string, port: nat)
    requires Addresses(env) && PlainName(env, h) && h != "javascript" && 1 <= port <= 65535
    ensures IntentOf(env, h + ":" + Dec(port)) == Ok(Intent(h, Some(port), "", None))
  {
    var raw := h + ":" + Dec(port);
    Digits(port);
    PortedShape(h, Dec(port));
    PortedSplits(h, Dec(port));
    PortRoundTrip(port);
    assert env.normal(raw).None? && env.spell(raw).None?;
    assert LooksLikeHostPort(raw);
    assert !ContainsSlashes(raw);
    assert raw[0] == h[0] && IdentityChar(h[0]);
  }

  /** A name with a port is a web server on that port, or the service that is asked for. */
  lemma NameAndPort(env: Env, h: string, port: nat, service: Option<string>)
    requires Addresses(env) && PlainName(env, h) && h != "javascript" && 1 <= port <= 65535 && (service.Some? ==> service.value in SERVICES)
    ensures var raw := h + ":" + Dec(port);
            raw[0] != '\\' && ParseTarget(env, raw, service, None) == Ok(Parsed(h, "", if service.Some? then service.value else "http", port, ""))
  {
    Digits(port);
    PortedPlain(h, Dec(port));
    PortedReads(env, h, port);
    CanonicalOfName(env, h);
  }

  /** The one name for which that reads as a scheme. */
  lemma ScriptIsRefused(env: Env, port: nat)
    requires Addresses(env)
    ensures IntentOf(env, "javascript" + ":" + Dec(port)) == Failed
  {
    Digits(port);
    ScriptIsText("javascript");
    SchemeAndDigits(env, "javascript", Dec(port));
  }

  lemma SchemeAndDigits(env: Env, h: string, d: string)
    requires Addresses(env)
    requires IdentityText(h) && Without(h, ':') && Lower(h) == h == "javascript" && SchemeOk(h) && AllDigits(d) && d != ""
    ensures IntentOf(env, h + ":" + d) == Failed
  {
    var raw := h + ":" + d;
    PortedShape(h, d);
    assert HasUriScheme(raw) && !LooksLikeHostPort(raw);
    assert '#' !in raw && '?' !in raw;
    CutNothing(raw, '#');
    CutNothing(raw, '?');
    assert raw[|h|..][1] == d[0];
  }

  lemma ScriptIsText(s: string)
    requires s == "javascript"
    ensures IdentityText(s) && Without(s, ':') && Lower(s) == s && SchemeOk(s)
  {
  }

  /** An address in brackets, with a port. */
  lemma AddressAndPort(env: Env, h: string, port: nat, service: Option<string>)
    requires Addresses(env) && IdentityText(h) && ':' in h && env.normal(h) == Some(h) && 1 <= port <= 65535
    requires service.Some? ==> service.value in SERVICES
    ensures var raw := "[" + h + "]:" + Dec(port);
            ParseTarget(env, raw, service, None) == Ok(Parsed(h, h, if service.Some? then service.value else "http", port, ""))
  {
    var raw := "[" + h + "]:" + Dec(port);
    Digits(port);
    BracketReads(env, h, port);
    CanonicalOfAddress(env, h);
    BracketPlain(h, Dec(port));
  }

  lemma BracketPlain(h: string, d: string)
    requires IdentityText(h) && AllDigits(d) && d != ""
    ensures var raw := "[" + h + "]:" + d; !IsSpace(raw[0]) && !IsSpace(raw[|raw| - 1]) && forall i :: 0 <= i < |raw| ==> !IsControl(raw[i])
  {
    NoSpaces(h);
    var raw := "[" + h + "]:" + d;
    assert raw[|raw| - 1] == d[|d| - 1];
    forall i | 0 <= i < |raw| ensures !IsControl(raw[i]) {
      if 0 < i <= |h| {
        assert raw[i] == h[i - 1];
      } else if i > |h| + 2 {
        assert raw[i] == d[i - |h| - 3];
      }
    }
  }

  lemma BracketShape(h: string, d: string)
    requires IdentityText(h) && AllDigits(d) && d != ""
    ensures var raw := "[" + h + "]:" + d;
            && raw[0] == '[' && IndexOf(raw, ']') == |h| + 1 && raw[1..|h| + 1] == h && raw[|h| + 2..] == ":" + d
            && '/' !in raw && '%' !in raw
  {
    var raw := "[" + h + "]:" + d;
    assert raw[|h| + 1] == ']';
    forall j | 0 <= j < |h| + 1 ensures raw[j] != ']' {
      assert j > 0 ==> raw[j] == h[j - 1];
    }
    FirstAt(raw, ']', |h| + 1);
    assert forall c :: c in raw ==> c in h || c == '[' || c == ']' || c == ':' || c in d;
  }

  lemma BracketParses(env: Env, h: string, port: nat)
    requires IdentityText(h) && env.spell(h).Some? && 1 <= port <= 65535
    ensures var raw := "[" + h + "]:" + Dec(port); env.spell(raw).None? ==> ParseHostInput(env, raw) == Ok((h, Some(port)))
  {
    Digits(port);
    BracketShape(h, Dec(port));
    PortRoundTrip(port);
    assert (":" + Dec(port))[0] == ':' && (":" + Dec(port))[1..] == Dec(port);
  }

  lemma BracketIsNoUrl(h: string, d: string)
    requires IdentityText(h) && AllDigits(d) && d != ""
    ensures var raw := "[" + h + "]:" + d; !ContainsSlashes(raw) && !HasUriScheme(raw)
  {
    var raw := "[" + h + "]:" + d;
    BracketShape(h, d);
    assert forall i :: 0 <= i < |raw| ==> raw[i] in raw;
    var i := IndexOf(raw, ':');
    assert i > 0 ==> raw[..i][0] == '[';
  }

  lemma BracketIsNoAddress(env: Env, h: string, d: string)
    requires Addresses(env) && IdentityText(h) && AllDigits(d) && d != ""
    ensures env.normal("[" + h + "]:" + d).None? && env.spell("[" + h + "]:" + d).None?
  {
    BracketShape(h, d);
    assert !AddressChar(("[" + h + "]:" + d)[0]);
  }

  lemma BracketReads(env: Env, h: string, port: nat)
    requires Addresses(env) && IdentityText(h) && ':' in h && env.normal(h) == Some(h) && 1 <= port <= 65535
    ensures IntentOf(env, "[" + h + "]:" + Dec(port)) == Ok(Intent(h, Some(port), "", None))
  {
    Digits(port);
    BracketIsNoUrl(h, Dec(port));
    BracketIsNoAddress(env, h, Dec(port));
    BracketParses(env, h, port);
  }

  // ---- resources, users, fragments ----

  predicate Ends(s: string, c: char) {
    s == "" || s[0] == c
  }

  /** The parts of a URL, each with the character that begins or ends it. */
  predicate Parts(user: string, authority: string, path: string, query: string, fragment: string) {
    && AuthorityText(authority) && (user == "" || user[|user| - 1] == '@') && Ends(path, '/') && Ends(query, '?') && Ends(fragment, '#')
    && '#' !in user + path + query && '?' !in user + path && '/' !in user
  }

  lemma FrontCuts(scheme: string, user: string, authority: string, path: string, query: string, fragment: string)
    requires RegisteredScheme(scheme) && Parts(user, authority, path, query, fragment)
    ensures var base := scheme + "://" + user + authority + path;
            && Cut(base + query + fragment, '#') == (base + query, fragment) && Cut(base + query, '?') == (base, query)
  {
    SchemeText(scheme);
    var base := scheme + "://" + user + authority + path;
    assert forall c :: c in base ==> c in scheme || c in "://" || c in user || c in authority || c in path;
    assert forall c :: c in user + path + query <==> c in user || c in path || c in query;
    assert forall c :: c in user + path <==> c in user || c in path;
    assert '#' !in base + query && '?' !in base;
    CutOff(base + query, '#', fragment);
    CutOff(base, '?', query);
  }

  lemma CutOff(a: string, c: char, b: string)
    requires c !in a && Ends(b, c)
    ensures Cut(a + b, c) == (a, b)
  {
    if b == "" {
      CutNothing(a, c);
      assert a + b == a;
    } else {
      CutFront(a, c, b);
    }
  }

  lemma SchemeComesOff(scheme: string, rest: string)
    requires RegisteredScheme(scheme)
    ensures Cut(scheme + "://" + rest, ':') == (scheme, "://" + rest) && ("://" + rest)[3..] == rest && HasPrefix("://" + rest, "://")
  {
    SchemeText(scheme);
    assert scheme + "://" + rest == scheme + ("://" + rest);
    CutFront(scheme, ':', "://" + rest);
  }

  lemma PathComesOff(front: string, path: string)
    requires '/' !in front && Ends(path, '/')
    ensures Cut(front + path, '/') == (front, path)
  {
    CutOff(front, '/', path);
  }

  lemma NoAt(authority: string, j: nat)
    requires AuthorityText(authority) && j < |authority|
    ensures authority[j] != '@'
  {
  }

  lemma UserComesOff(user: string, authority: string)
    requires AuthorityText(authority) && (user == "" || user[|user| - 1] == '@')
    ensures AfterLast(user + authority, '@') == |user| && (user + authority)[|user|..] == authority
  {
    var all := user + authority;
    assert |user| > 0 ==> all[|user| - 1] == user[|user| - 1];
    forall j | |user| <= j < |all| ensures all[j] != '@' {
      assert all[j] == authority[j - |user|];
      NoAt(authority, j - |user|);
    }
    LastAt(all, '@', |user|);
  }

  lemma Regrouped(scheme: string, user: string, authority: string, path: string)
    ensures scheme + "://" + user + authority + path == scheme + "://" + ((user + authority) + path)
  {
  }

  lemma BackCuts(scheme: string, user: string, authority: string, path: string)
    requires RegisteredScheme(scheme) && AuthorityText(authority) && (user == "" || user[|user| - 1] == '@') && '/' !in user && Ends(path, '/')
    ensures var rest := (user + authority) + path;
            && Cut(scheme + "://" + user + authority + path, ':') == (scheme, "://" + rest)
            && ("://" + rest)[3..] == rest && HasPrefix("://" + rest, "://") && Cut(rest, '/') == (user + authority, path)
    ensures AfterLast(user + authority, '@') == |user| && (user + authority)[|user|..] == authority
  {
    Regrouped(scheme, user, authority, path);
    SchemeComesOff(scheme, (user + authority) + path);
    assert '/' !in user + authority;
    PathComesOff(user + authority, path);
    UserComesOff(user, authority);
  }

  lemma PartsSplit(scheme: string, user: string, authority: string, host: string, port: string, path: string, query: string, fragment: string)
    requires RegisteredScheme(scheme) && Parts(user, authority, path, query, fragment) && SplitAuthority(authority) == Some((host, port))
    ensures ParseUrl(scheme + "://" + user + authority + path + query + fragment)
            == Some(Url(scheme, user != "", host, port, path, query, |fragment| > 1))
  {
    FrontCuts(scheme, user, authority, path, query, fragment);
    BackCuts(scheme, user, authority, path);
    SchemeText(scheme);
  }

  /**
   A URL keeps its path and query as the resource; with user information or a fragment it is refused;
   a lone question mark or hash sign is dropped.
   */
  lemma UrlMeans(scheme: string, user: string, h: string, port: nat, path: string, query: string, fragment: string)
    requires RegisteredScheme(scheme) && IdentityText(h) && 1 <= port <= 65535 && Parts(user, JoinHostPort(h, port), path, query, fragment)
    ensures IntentOfUrl(scheme + "://" + user + JoinHostPort(h, port) + path + query + fragment) ==
              if user != "" || |fragment| > 1 then Failed
              else Ok(Intent(h, Some(port), path + (if |query| > 1 then query else ""), Some(Usual(scheme).0)))
  {
    AuthoritySplits(h, port);
    PartsSplit(scheme, user, JoinHostPort(h, port), h, Dec(port), path, query, fragment);
    PortRoundTrip(port);
    Digits(port);
    UsualIs(scheme);
  }

  // ---- names ----

  /** The parts of a name between dots. */
  function LabelsOf(host: string): seq<string> {
    var i := IndexOf(host, '.');
    if i == |host| then [host] else [host[..i]] + LabelsOf(host[i + 1..])
  }

  /** One to 63 characters, lower-case letters, digits, dashes inside, underscores, or beyond ASCII. */
  predicate IsLabel(s: string) {
    && 1 <= |s| <= 63 && s[0] != '-' && s[|s| - 1] != '-'
    && forall i :: 0 <= i < |s| ==> 'a' <= s[i] <= 'z' || '0' <= s[i] <= '9' || s[i] == '-' || s[i] == '_' || s[i] as int > 127
  }

  predicate AllLabels(parts: seq<string>) {
    forall k :: 0 <= k < |parts| ==> IsLabel(parts[k])
  }

  lemma LabelsCons(first: string, rest: seq<string>)
    ensures AllLabels([first] + rest) <==> IsLabel(first) && AllLabels(rest)
  {
    var all := [first] + rest;
    assert all[0] == first && forall k :: 0 <= k < |rest| ==> rest[k] == all[k + 1];
    assert forall k :: 1 <= k < |all| ==> all[k] == rest[k - 1];
  }

  lemma LabelIff(part: string)
    ensures ValidLabel(part) <==> IsLabel(part)
  {
  }

  lemma {:induction false} LabelsIff(host: string)
    ensures ValidLabels(host) <==> AllLabels(LabelsOf(host))
    decreases |host|
  {
    var i := IndexOf(host, '.');
    LabelIff(host[..i]);
    if i < |host| {
      LabelsIff(host[i + 1..]);
      LabelsCons(host[..i], LabelsOf(host[i + 1..]));
    } else {
      assert host[..i] == host;
      LabelsCons(host, []);
      assert [host] + [] == [host];
    }
  }

  /** Which hosts are names, and what they become: lower case without a final dot. */
  lemma NameIff(env: Env, host: string)
    requires env.normal(host).None?
    ensures var name := Lower(if host != "" && host[|host| - 1] == '.' then host[..|host| - 1] else host);
            Canonical(env, host) ==
              if && 1 <= |host| <= 253 && name != ""
                 && (forall i :: 0 <= i < |host| ==> !IsSpace(host[i]) && !IsControl(host[i]) && host[i] !in {'[', ']', '/'})
                 && AllLabels(LabelsOf(name))
              then Ok((name, "")) else Failed
  {
    LabelsIff(Lower(Trimmed(host)));
  }
}
