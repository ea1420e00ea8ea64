/**
 Which fields the export drops, hides or rewrites, said of the exported tree
 (internal/privacy/privacy.go:167-187, 219-295).  The tables of the policy overlap; these are the
 fields that they amount to.
 */
module RedactionPolicy {
  import opened Redaction

  // ---- what the tables amount to ----

  const PERSONAL: set<string> :=
    {"user", "username", "user_name", "profile", "profile_path", "local_profile_path", "home", "home_directory", "local_path",
     "file_path", "working_directory"}

  /** The field mentions a credential. */
  predicate Mentions(field: string) {
    || Contains(field, "authorization") || Contains(field, "cookie") || Contains(field, "password") || Contains(field, "passwd")
    || Contains(field, "credential") || Contains(field, "secret") || Contains(field, "api_key") || Contains(field, "apikey")
  }

  /** The field ends like a token, a key, a body, a query or an authentication. */
  predicate EndsLike(field: string) {
    || HasSuffix(field, "token") || HasSuffix(field, "_key") || HasSuffix(field, "privatekey") || HasSuffix(field, "body")
    || HasSuffix(field, "query") || HasSuffix(field, "auth")
  }

  /** Payloads, key material and headers that neither rule covers. */
  const NAMED: set<string> :=
    {"email_addresses", "email_address", "emailaddresses", "payload", "request_payload", "response_payload", "body_content",
     "private_key_bytes", "certificate_bytes", "certificate_der", "certificate_pem", "query_string", "querystring", "query_params",
     "queryparameters", "query_parameters", "fragment", "authheader", "proxyauthheader", "proxyauthenticate", "wwwauthenticate"}

  /** What leaves the export altogether. */
  predicate Sensitive(field: string) {
    field !in PERSONAL && (Mentions(field) || EndsLike(field) || field in NAMED)
  }

  lemma SuffixAt(s: string, t: string, front: string)
    requires s == front + t
    ensures HasSuffix(s, t)
  {
  }

  /** The payload names that are not among the named ones ... */
  const ENDING_PAYLOADS: set<string> :=
    {"request_body", "response_body", "raw_body", "body", "private_key", "query", "raw_query", "rawquery"}

  lemma PayloadsSplit(field: string)
    requires field in PAYLOAD_FIELDS
    ensures field in NAMED || field in ENDING_PAYLOADS
  {
  }

  lemma BodyNames()
    ensures HasSuffix("request_body", "body") && HasSuffix("response_body", "body")
  {
    SuffixAt("request_body", "body", "request_");
    SuffixAt("response_body", "body", "response_");
  }

  lemma ShortBodyNames()
    ensures HasSuffix("raw_body", "body") && HasSuffix("body", "body")
  {
    SuffixAt("raw_body", "body", "raw_");
    SuffixAt("body", "body", "");
  }

  lemma QueryName()
    ensures HasSuffix("query", "query")
  {
    assert "query"[0..] == "query";
  }

  lemma RawQueryName()
    ensures HasSuffix("raw_query", "query")
  {
    assert "raw_query"[4..] == "query";
  }

  lemma RawqueryName()
    ensures HasSuffix("rawquery", "query")
  {
    assert "rawquery"[3..] == "query";
  }

  lemma KeyName()
    ensures HasSuffix("private_key", "_key")
  {
    SuffixAt("private_key", "_key", "private");
  }

  /** ... end like a body, a query or a key. */
  lemma EndingPayloads(field: string)
    requires field in ENDING_PAYLOADS
    ensures EndsLike(field)
  {
    BodyNames();
    ShortBodyNames();
    QueryName();
    RawQueryName();
    RawqueryName();
    KeyName();
  }

  /** The secret names that are not among the named ones end like a token or an authentication ... */
  const ENDING_SECRETS: set<string> :=
    {"token", "accesstoken", "refreshtoken", "idtoken", "sessiontoken", "csrftoken", "auth", "proxyauth"}

  lemma SecretsSplit(field: string)
    requires field in SECRET_FIELDS
    ensures field in NAMED || field in ENDING_SECRETS || field == "authorizationheader" || field == "proxyauthorizationheader"
  {
  }

  lemma TokenNames()
    ensures HasSuffix("token", "token") && HasSuffix("idtoken", "token") && HasSuffix("csrftoken", "token")
  {
    SuffixAt("token", "token", "");
    SuffixAt("idtoken", "token", "id");
    SuffixAt("csrftoken", "token", "csrf");
  }

  lemma LongTokenNames()
    ensures HasSuffix("accesstoken", "token") && HasSuffix("refreshtoken", "token")
  {
    SuffixAt("accesstoken", "token", "access");
    SuffixAt("refreshtoken", "token", "refresh");
  }

  lemma SessionTokenName()
    ensures HasSuffix("sessiontoken", "token")
  {
    SuffixAt("sessiontoken", "token", "session");
  }

  lemma AuthNames()
    ensures HasSuffix("auth", "auth") && HasSuffix("proxyauth", "auth")
  {
    SuffixAt("auth", "auth", "");
    SuffixAt("proxyauth", "auth", "proxy");
  }

  lemma EndingSecrets(field: string)
    requires field in ENDING_SECRETS
    ensures EndsLike(field)
  {
    TokenNames();
    LongTokenNames();
    SessionTokenName();
    AuthNames();
  }

  /** ... or mention an authorization. */
  lemma AuthorizationHeader()
    ensures Contains("authorizationheader", "authorization")
  {
    assert "authorizationheader"[..13] == "authorization";
  }

  lemma {:induction false} ContainsTail(s: string, i: nat, t: string)
    requires i <= |s| && Contains(s[i..], t)
    ensures Contains(s, t)
    decreases i
  {
    if i > 0 {
      assert s[i - 1..][1..] == s[i..];
      ContainsTail(s, i - 1, t);
    } else {
      assert s[0..] == s;
    }
  }

  lemma ProxyAuthorizationHeader()
    ensures Contains("proxyauthorizationheader", "authorization")
  {
    AuthorizationHeader();
    assert "proxyauthorizationheader"[5..] == "authorizationheader";
    ContainsTail("proxyauthorizationheader", 5, "authorization");
  }

  lemma NamedAreListed(field: string)
    requires field in NAMED
    ensures field in PAYLOAD_FIELDS || field in SECRET_FIELDS
  {
  }

  lemma OnePart(field: string, part: string)
    requires part in EXCLUDED_PARTS && Contains(field, part)
    ensures Mentions(field)
  {
  }

  lemma PartsAreMentions(field: string)
    ensures (exists part :: part in EXCLUDED_PARTS && Contains(field, part)) <==> Mentions(field)
  {
    var parts := EXCLUDED_PARTS;
    assert parts[0] in parts && parts[1] in parts && parts[2] in parts && parts[3] in parts;
    assert parts[4] in parts && parts[5] in parts && parts[6] in parts && parts[7] in parts;
    if part :| part in parts && Contains(field, part) {
      OnePart(field, part);
    }
  }

  lemma LongerSuffix(s: string, t: string, u: string)
    requires HasSuffix(s, t) && HasSuffix(t, u)
    ensures HasSuffix(s, u)
  {
    assert s[|s| - |u|..] == s[|s| - |t|..][|t| - |u|..];
  }

  lemma SuffixesAreEnds(field: string)
    ensures (exists suffix :: suffix in EXCLUDED_SUFFIXES && HasSuffix(field, suffix)) <==> EndsLike(field)
  {
    assert EXCLUDED_SUFFIXES[1] == "token" && EXCLUDED_SUFFIXES[2] == "_key" && EXCLUDED_SUFFIXES[3] == "privatekey";
    assert EXCLUDED_SUFFIXES[5] == "body" && EXCLUDED_SUFFIXES[7] == "query" && EXCLUDED_SUFFIXES[9] == "auth";
    if suffix :| suffix in EXCLUDED_SUFFIXES && HasSuffix(field, suffix) {
      ShortSuffix(field, suffix);
    }
  }

  lemma ShortSuffix(field: string, suffix: string)
    requires suffix in EXCLUDED_SUFFIXES && HasSuffix(field, suffix)
    ensures EndsLike(field)
  {
    SuffixAt("_token", "token", "_");
    SuffixAt("_body", "body", "_");
    SuffixAt("_query", "query", "_");
    SuffixAt("_auth", "auth", "_");
    if suffix == "_token" {
      LongerSuffix(field, "_token", "token");
    } else if suffix == "_body" {
      LongerSuffix(field, "_body", "body");
    } else if suffix == "_query" {
      LongerSuffix(field, "_query", "query");
    } else if suffix == "_auth" {
      LongerSuffix(field, "_auth", "auth");
    }
  }

  lemma PersonalIff(field: string)
    ensures DispositionOf(field).Redact? <==> field in PERSONAL
  {
  }

  lemma SensitiveIff(field: string)
    ensures DispositionOf(field).Exclude? <==> Sensitive(field)
  {
    PersonalIff(field);
    PartsAreMentions(field);
    SuffixesAreEnds(field);
    if field in NAMED {
      NamedAreListed(field);
    }
    if field in PAYLOAD_FIELDS {
      PayloadsSplit(field);
      if field in ENDING_PAYLOADS {
        EndingPayloads(field);
      }
    }
    if field in SECRET_FIELDS {
      SecretsSplit(field);
      AuthorizationHeader();
      ProxyAuthorizationHeader();
      if field in ENDING_SECRETS {
        EndingSecrets(field);
      }
    }
  }

  // ---- what becomes of the tree ----

  /** At every depth: nothing sensitive is left, and what is personal is hidden. */
  ghost predicate Purged(rules: Rules, j: Json) {
    match j
    case List(items) => forall i :: 0 <= i < |items| ==> Purged(rules, items[i])
    case Object(members) =>
      forall key :: key in members ==>
        && !Sensitive(rules.normal(key))
        && (rules.normal(key) in PERSONAL ==> members[key] == Str("[REDACTED]"))
        && Purged(rules, members[key])
    case _ => true
  }

  lemma {:induction false} CleanIsPurged(rules: Rules, j: Json)
    requires Clean(rules, j)
    ensures Purged(rules, j)
  {
    match j
    case List(items) =>
      forall i | 0 <= i < |items| ensures Purged(rules, items[i]) {
        CleanIsPurged(rules, items[i]);
      }
    case Object(members) =>
      forall key | key in members
        ensures !Sensitive(rules.normal(key)) && (rules.normal(key) in PERSONAL ==> members[key] == Str(MARKER)) && Purged(rules, members[key])
      {
        SensitiveIff(rules.normal(key));
        PersonalIff(rules.normal(key));
        CleanIsPurged(rules, members[key]);
      }
    case _ =>
  }

  /** No sensitive field survives the export at any depth, and every personal one holds the marker. */
  lemma ExportIsPurged(rules: Rules, field: string, j: Json)
    requires Sane(rules)
    ensures Purged(rules, Redacted(rules, field, j))
  {
    RedactedIsClean(rules, field, j);
    CleanIsPurged(rules, Redacted(rules, field, j));
  }

  /** Nothing else is lost: every other member stays, and what is below it is exported under its name. */
  lemma OtherMembersStay(rules: Rules, field: string, members: map<string, Json>, key: string)
    requires key in members && !(field == "evidence" && rules.normal(key) == "raw")
    ensures var (out, name) := (Redacted(rules, field, Object(members)).members, rules.normal(key));
            && (key in out <==> !Sensitive(name))
            && (key in out ==> out[key] == if name in PERSONAL then Str("[REDACTED]") else Redacted(rules, name, members[key]))
  {
    SensitiveIff(rules.normal(key));
    PersonalIff(rules.normal(key));
  }

  lemma RawIs(rules: Rules, key: string, j: Json)
    ensures RawEvidence(rules, key, j) ==
              match j
              case Str(s) => Str(rules.freeText(s))
              case Null => Object(map["redacted" := Bool(true), "reason" := Str("empty evidence")])
              case _ => Redacted(rules, rules.normal(key), j)
  {
  }

  /** The raw payload of an evidence item always stays; an empty one is marked as such. */
  lemma RawEvidenceStays(rules: Rules, members: map<string, Json>, key: string)
    requires key in members && rules.normal(key) == "raw"
    ensures var out := Redacted(rules, "evidence", Object(members)).members;
            key in out && out[key] ==
              match members[key]
              case Str(s) => Str(rules.freeText(s))
              case Null => Object(map["redacted" := Bool(true), "reason" := Str("empty evidence")])
              case _ => Redacted(rules, rules.normal(key), members[key])
  {
    RawIs(rules, key, members[key]);
    assert Member(rules, "evidence", key, members[key]) == RawEvidence(rules, key, members[key]);
  }

  predicate NamesUrl(field: string) {
    field in {"url", "uri", "location", "resource", "requested_resource", "original_input", "authority"}
    || HasSuffix(field, "_url") || HasSuffix(field, "_uri")
  }

  lemma UrlNames(field: string)
    ensures IsUrlField(field) <==> NamesUrl(field)
  {
    assert "to_url"[2..] == "_url" && "pac_url"[3..] == "_url";
  }

  /** How a string is rewritten, by the name it is under. */
  lemma StringIsRewritten(rules: Rules, field: string, s: string)
    requires field !in PERSONAL
    ensures Redacted(rules, field, Str(s)) == Str(
              if NamesUrl(field) then rules.url(s)
              else if field in {"path", "file"} then rules.localPath(s)
              else if field in {"error", "note", "detail", "description", "limitation", "limitations", "interception_basis", "block_causality"}
              then rules.freeText(s)
              else rules.embedded(s))
  {
    UrlNames(field);
  }
}
