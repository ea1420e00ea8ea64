/**
 The export redaction of JSON trees (internal/privacy/privacy.go:112-245, 319-387).  The walk
 deletes and replaces object members while it reads them in an order that it does not choose.
 */
module Redaction {

  datatype Json =
    | Null
    | Bool(b: bool)
    | Number(text: string)
    | Str(s: string)
    | List(items: seq<Json>)
    | Object(members: map<string, Json>)

  /** Field normalization and the string rewriters, which rest on other packages. */
  datatype Rules = Rules(normal: string -> string, url: string -> string, localPath: string -> string,
                         freeText: string -> string, embedded: string -> string)

  const MARKER := "[REDACTED]"
  const RAW := "raw"
  const EVIDENCE := "evidence"
  const EMPTY_EVIDENCE: Json := Object(map["redacted" := Bool(true), "reason" := Str("empty evidence")])

  // ---- field classes ----

  datatype Disposition = Keep | Redact | Exclude

  const REDACTED_FIELDS: set<string> :=
    {"username", "user_name", "user", "profile", "profile_path", "home", "home_directory", "local_path", "file_path",
     "working_directory", "local_profile_path"}

  const PAYLOAD_FIELDS: set<string> :=
    {"email_addresses", "email_address", "emailaddresses", "request_body", "response_body", "body", "payload", "request_payload",
     "response_payload", "raw_body", "body_content", "private_key", "private_key_bytes", "certificate_bytes", "certificate_der",
     "certificate_pem", "query", "query_string", "querystring", "query_params", "queryparameters", "query_parameters", "raw_query",
     "rawquery", "fragment"}

  const SECRET_FIELDS: set<string> :=
    {"token", "accesstoken", "refreshtoken", "idtoken", "sessiontoken", "csrftoken", "auth", "authheader", "authorizationheader",
     "proxyauth", "proxyauthheader", "proxyauthorizationheader", "proxyauthenticate", "wwwauthenticate"}

  const EXCLUDED_PARTS: seq<string> :=
    ["authorization", "cookie", "password", "passwd", "credential", "secret", "api_key", "apikey"]

  const EXCLUDED_SUFFIXES: seq<string> :=
    ["_token", "token", "_key", "privatekey", "_body", "body", "_query", "query", "_auth", "auth"]

  predicate HasSuffix(s: string, t: string) {
    |t| <= |s| && s[|s| - |t|..] == t
  }

  predicate Contains(s: string, t: string) {
    t <= s || (s != "" && Contains(s[1..], t))
  }

  /** `fieldDisposition`. */
  function DispositionOf(field: string): Disposition {
    if field in REDACTED_FIELDS then Redact
    else if field in PAYLOAD_FIELDS || field in SECRET_FIELDS then Exclude
    else if exists part :: part in EXCLUDED_PARTS && Contains(field, part) then Exclude
    else if exists suffix :: suffix in EXCLUDED_SUFFIXES && HasSuffix(field, suffix) then Exclude
    else Keep
  }

  predicate IsUrlField(field: string) {
    field in {"url", "uri", "location", "to_url", "pac_url", "resource", "requested_resource", "original_input", "authority"}
    || HasSuffix(field, "_url") || HasSuffix(field, "_uri")
  }

  predicate IsLocalPathField(field: string) {
    field in {"path", "file", "file_path", "local_path", "profile", "profile_path", "home", "home_directory", "working_directory"}
  }

  predicate IsFreeTextField(field: string) {
    field in {"error", "note", "detail", "description", "limitation", "limitations", "interception_basis", "block_causality"}
  }

  /** `redactString`. */
  function RedactString(rules: Rules, field: string, s: string): string {
    if IsUrlField(field) then rules.url(s)
    else if IsLocalPathField(field) then rules.localPath(s)
    else if IsFreeTextField(field) then rules.freeText(s)
    else rules.embedded(s)
  }

  // ---- the walk, as a function ----

  /** The raw payload of an evidence item; `field` is the field that the object is under. */
  predicate IsEvidenceRaw(rules: Rules, field: string, key: string) {
    field == EVIDENCE && rules.normal(key) == RAW
  }

  predicate Survives(rules: Rules, field: string, key: string) {
    IsEvidenceRaw(rules, field, key) || !DispositionOf(rules.normal(key)).Exclude?
  }

  /** What the tree becomes under a field; "" is the top. */
  function Redacted(rules: Rules, field: string, j: Json): Json
    decreases j, 1
  {
    match j
    case Str(s) => Str(RedactString(rules, field, s))
    case List(items) => List(seq(|items|, i requires 0 <= i < |items| => Redacted(rules, field, items[i])))
    case Object(members) =>
      Object(map key | key in members && Survives(rules, field, key) :: Member(rules, field, key, members[key]))
    case _ => j
  }

  /** What a surviving member becomes. */
  function Member(rules: Rules, field: string, key: string, j: Json): Json
    decreases j, 3
  {
    if IsEvidenceRaw(rules, field, key) then RawEvidence(rules, key, j)
    else if DispositionOf(rules.normal(key)).Redact? then Str(MARKER)
    else Redacted(rules, rules.normal(key), j)
  }

  /** `redactEvidenceRaw`. */
  function RawEvidence(rules: Rules, key: string, j: Json): Json
    decreases j, 2
  {
    match j
    case Str(s) => Str(rules.freeText(s))
    case Null => EMPTY_EVIDENCE
    case _ => Redacted(rules, rules.normal(key), j)
  }

  /** Whether the walk reports a change. */
  predicate Changed(rules: Rules, field: string, j: Json)
    decreases j, 1
  {
    match j
    case Str(s) => RedactString(rules, field, s) != s
    case List(items) => exists i :: 0 <= i < |items| && Changed(rules, field, items[i])
    case Object(members) => exists key :: key in members && MemberChanged(rules, field, key, members[key])
    case _ => false
  }

  predicate MemberChanged(rules: Rules, field: string, key: string, j: Json)
    decreases j, 3
  {
    if IsEvidenceRaw(rules, field, key) then RawChanged(rules, key, j)
    else !DispositionOf(rules.normal(key)).Keep? || Changed(rules, rules.normal(key), j)
  }

  predicate RawChanged(rules: Rules, key: string, j: Json)
    decreases j, 2
  {
    match j
    case Str(s) => rules.freeText(s) != s
    case Null => true
    case _ => Changed(rules, rules.normal(key), j)
  }

  // ---- the walk, as a procedure ----

  /** The members while those in `left` are still to be read. */
  function Partly(rules: Rules, field: string, members: map<string, Json>, left: set<string>): map<string, Json> {
    map key | key in members && (key in left || Survives(rules, field, key)) ::
      if key in left then members[key] else Member(rules, field, key, members[key])
  }

  ghost predicate ChangedOutside(rules: Rules, field: string, members: map<string, Json>, left: set<string>) {
    exists key :: key in members && key !in left && MemberChanged(rules, field, key, members[key])
  }

  lemma PartlyStep(rules: Rules, field: string, members: map<string, Json>, left: set<string>, key: string)
    requires left <= members.Keys && key in left
    ensures var before, after := Partly(rules, field, members, left), Partly(rules, field, members, left - {key});
            after == if Survives(rules, field, key) then before[key := Member(rules, field, key, members[key])] else before - {key}
    ensures ChangedOutside(rules, field, members, left - {key})
            <==> ChangedOutside(rules, field, members, left) || MemberChanged(rules, field, key, members[key])
  {
  }

  /** `redactNode`. */
  method RedactNode(rules: Rules, field: string, j: Json) returns (r: Json, changed: bool)
    ensures r == Redacted(rules, field, j) && changed == Changed(rules, field, j)
    decreases j, 1
  {
    match j {
      case Str(s) =>
        var value := RedactString(rules, field, s);
        r, changed := Str(value), value != s;
      case List(items) =>
        var out: seq<Json> := [];
        changed := false;
        for i := 0 to |items|
          invariant |out| == i && forall k :: 0 <= k < i ==> out[k] == Redacted(rules, field, items[k])
          invariant changed <==> exists k :: 0 <= k < i && Changed(rules, field, items[k])
        {
          var item, itemChanged := RedactNode(rules, field, items[i]);
          out, changed := out + [item], changed || itemChanged;
        }
        r := List(out);
      case Object(members) =>
        var out;
        out, changed := RedactMap(rules, field, j);
        r := Object(out);
      case _ =>
        r, changed := j, false;
    }
  }

  /** `redactMap`: reads the members in any order, replacing and deleting as it goes. */
  method RedactMap(rules: Rules, field: string, j: Json) returns (out: map<string, Json>, changed: bool)
    requires j.Object?
    ensures Object(out) == Redacted(rules, field, j) && changed == Changed(rules, field, j)
    decreases j, 0
  {
    var members := j.members;
    out, changed := members, false;
    var left := members.Keys;
    assert Partly(rules, field, members, left) == members;
    while left != {}
      invariant left <= members.Keys
      invariant out == Partly(rules, field, members, left)
      invariant changed == ChangedOutside(rules, field, members, left)
      decreases left
    {
      var key :| key in left;
      PartlyStep(rules, field, members, left, key);
      left := left - {key};
      var value, valueChanged := RedactMember(rules, field, key, members[key]);
      changed := changed || valueChanged;
      out := if Survives(rules, field, key) then out[key := value] else out - {key};
    }
    assert out == Redacted(rules, field, j).members;
  }

  /** One round of the loop of `redactMap`; the value of a deleted member is not used. */
  method RedactMember(rules: Rules, field: string, key: string, j: Json) returns (r: Json, changed: bool)
    ensures Survives(rules, field, key) ==> r == Member(rules, field, key, j)
    ensures changed == MemberChanged(rules, field, key, j)
    decreases j, 2
  {
    if IsEvidenceRaw(rules, field, key) {
      match j {
        case Str(s) =>
          var value := rules.freeText(s);
          return Str(value), value != s;
        case Null =>
          return EMPTY_EVIDENCE, true;
        case _ =>
          r, changed := RedactNode(rules, rules.normal(key), j);
          return;
      }
    }
    match DispositionOf(rules.normal(key)) {
      case Exclude => return j, true;
      case Redact => return Str(MARKER), true;
      case Keep => r, changed := RedactNode(rules, rules.normal(key), j);
    }
  }

  // ---- nothing excluded survives ----

  /** Normalization keeps the keys that the walk itself writes. */
  ghost predicate Sane(rules: Rules) {
    rules.normal("redacted") == "redacted" && rules.normal("reason") == "reason"
  }

  /** At every depth: no excluded key, and every redacted key holds the marker. */
  ghost predicate Clean(rules: Rules, j: Json) {
    match j
    case List(items) => forall i :: 0 <= i < |items| ==> Clean(rules, items[i])
    case Object(members) =>
      forall key :: key in members ==>
        && !DispositionOf(rules.normal(key)).Exclude?
        && (DispositionOf(rules.normal(key)).Redact? ==> members[key] == Str(MARKER))
        && Clean(rules, members[key])
    case _ => true
  }

  lemma {:induction false} ContainsStarts(s: string, t: string) returns (i: nat)
    requires Contains(s, t) && t != ""
    ensures i + |t| <= |s| && s[i] == t[0]
  {
    if t <= s {
      i := 0;
    } else {
      i := ContainsStarts(s[1..], t);
      i := i + 1;
    }
  }

  lemma NoRedactedField(field: string)
    requires field != "" && field[0] == 'r'
    ensures field !in REDACTED_FIELDS
  {
    assert forall x :: x in REDACTED_FIELDS ==> x[0] != 'r';
  }

  lemma NoPayloadField(field: string)
    requires 3 <= |field| <= 8 && field[0] == 'r' && (field[1] == 'e' || |field| == 3)
    ensures field !in PAYLOAD_FIELDS
  {
    assert forall x :: x in PAYLOAD_FIELDS && x[0] == 'r' ==> |x| > 8 || (|x| == 8 && x[1] == 'a');
  }

  lemma NoSecretField(field: string)
    requires 3 <= |field| <= 8 && field[0] == 'r'
    ensures field !in SECRET_FIELDS
  {
    assert forall x :: x in SECRET_FIELDS && x[0] == 'r' ==> |x| > 8;
  }

  predicate StartsPart(c: char) {
    c == 'a' || c == 'c' || c == 'p' || c == 's'
  }

  lemma PartsAre(x: string)
    requires x in EXCLUDED_PARTS
    ensures |x| >= 6 && StartsPart(x[0])
  {
  }

  /** A field with no place where an excluded part could begin. */
  predicate HasNoPart(field: string) {
    forall i :: 0 <= i && i + 6 <= |field| ==> !StartsPart(field[i])
  }

  lemma NoPart(field: string, x: string)
    requires x in EXCLUDED_PARTS && HasNoPart(field)
    ensures !Contains(field, x)
  {
    PartsAre(x);
    if Contains(field, x) {
      var i := ContainsStarts(field, x);
    }
  }

  lemma WrittenFieldHasNoPart(field: string)
    requires field in {"raw", "redacted", "reason"}
    ensures HasNoPart(field)
  {
  }

  lemma SuffixesAre(x: string)
    requires x in EXCLUDED_SUFFIXES
    ensures |x| >= 4 && (x[|x| - 1] == 'y' || x[|x| - 1] == 'h' || (x[|x| - 1] == 'n' && x[|x| - 2] == 'e'))
  {
  }

  lemma SuffixEnd(s: string, t: string)
    requires HasSuffix(s, t) && |t| >= 2
    ensures s[|s| - 1] == t[|t| - 1] && s[|s| - 2] == t[|t| - 2]
  {
    assert s[|s| - |t|..][|t| - 1] == s[|s| - 1];
    assert s[|s| - |t|..][|t| - 2] == s[|s| - 2];
  }

  lemma NoSuffix(field: string, x: string)
    requires field in {"raw", "redacted", "reason"} && x in EXCLUDED_SUFFIXES
    ensures !HasSuffix(field, x)
  {
    SuffixesAre(x);
    if HasSuffix(field, x) {
      SuffixEnd(field, x);
    }
  }

  /** The raw payload and the keys that the walk itself writes are kept. */
  lemma WrittenFieldIsKept(field: string)
    requires field in {"raw", "redacted", "reason"}
    ensures DispositionOf(field).Keep?
  {
    NoRedactedField(field);
    NoPayloadField(field);
    NoSecretField(field);
    WrittenFieldHasNoPart(field);
    forall x | x in EXCLUDED_PARTS ensures !Contains(field, x) {
      NoPart(field, x);
    }
    forall x | x in EXCLUDED_SUFFIXES ensures !HasSuffix(field, x) {
      NoSuffix(field, x);
    }
  }

  lemma {:induction false} RedactedIsClean(rules: Rules, field: string, j: Json)
    requires Sane(rules)
    ensures Clean(rules, Redacted(rules, field, j))
    decreases j, 1
  {
    match j
    case List(items) =>
      forall i | 0 <= i < |items| ensures Clean(rules, Redacted(rules, field, items[i])) {
        RedactedIsClean(rules, field, items[i]);
      }
    case Object(members) =>
      forall key | key in members && Survives(rules, field, key)
        ensures !DispositionOf(rules.normal(key)).Exclude?
        ensures DispositionOf(rules.normal(key)).Redact? ==> Member(rules, field, key, members[key]) == Str(MARKER)
        ensures Clean(rules, Member(rules, field, key, members[key]))
      {
        MemberIsClean(rules, field, key, members[key]);
      }
    case _ =>
  }

  lemma {:induction false} MemberIsClean(rules: Rules, field: string, key: string, j: Json)
    requires Sane(rules) && Survives(rules, field, key)
    ensures !DispositionOf(rules.normal(key)).Exclude?
    ensures DispositionOf(rules.normal(key)).Redact? ==> Member(rules, field, key, j) == Str(MARKER)
    ensures Clean(rules, Member(rules, field, key, j))
    decreases j, 2
  {
    if IsEvidenceRaw(rules, field, key) {
      WrittenFieldIsKept(RAW);
      if j.Null? {
        WrittenFieldIsKept("redacted");
        WrittenFieldIsKept("reason");
      } else if !j.Str? {
        RedactedIsClean(rules, rules.normal(key), j);
      }
    } else if !DispositionOf(rules.normal(key)).Redact? {
      RedactedIsClean(rules, rules.normal(key), j);
    }
  }

  // ---- a second pass ----

  /** The same tree up to the text of strings. */
  ghost predicate SameShape(a: Json, b: Json) {
    match a
    case Str(_) => b.Str?
    case List(items) => b.List? && |b.items| == |items| && forall i :: 0 <= i < |items| ==> SameShape(items[i], b.items[i])
    case Object(members) =>
      b.Object? && b.members.Keys == members.Keys && forall key :: key in members ==> SameShape(members[key], b.members[key])
    case _ => a == b
  }

  /** A second pass deletes no key and changes nothing but strings. */
  lemma {:induction false} SecondPassKeepsShape(rules: Rules, field: string, j: Json)
    requires Sane(rules)
    ensures SameShape(Redacted(rules, field, j), Redacted(rules, field, Redacted(rules, field, j)))
    decreases j, 1
  {
    match j
    case List(items) =>
      forall i | 0 <= i < |items| ensures SameShape(Redacted(rules, field, items[i]), Redacted(rules, field, Redacted(rules, field, items[i]))) {
        SecondPassKeepsShape(rules, field, items[i]);
      }
    case Object(members) =>
      var once := Redacted(rules, field, j).members;
      var twice := Redacted(rules, field, Object(once)).members;
      assert twice.Keys == once.Keys;
      forall key | key in once ensures SameShape(once[key], twice[key]) {
        SecondPassKeepsMember(rules, field, key, members[key]);
      }
    case _ =>
  }

  lemma {:induction false} SecondPassKeepsMember(rules: Rules, field: string, key: string, j: Json)
    requires Sane(rules) && Survives(rules, field, key)
    ensures SameShape(Member(rules, field, key, j), Member(rules, field, key, Member(rules, field, key, j)))
    decreases j, 2
  {
    if IsEvidenceRaw(rules, field, key) {
      if j.Null? {
        EmptyEvidenceStays(rules, rules.normal(key));
      } else if !j.Str? {
        SecondPassKeepsShape(rules, rules.normal(key), j);
      }
    } else if !DispositionOf(rules.normal(key)).Redact? {
      SecondPassKeepsShape(rules, rules.normal(key), j);
    }
  }

  /** The two keys of the marker for empty evidence are different, and neither is the raw key. */
  lemma EvidenceKeys()
    ensures "redacted" != "reason" && "redacted" != RAW && "reason" != RAW
  {
    assert "redacted"[2] != "reason"[2];
    assert RAW[1] == 'a' && "redacted"[1] == 'e' && "reason"[1] == 'e';
  }

  lemma EmptyEvidenceStays(rules: Rules, field: string)
    requires Sane(rules)
    ensures Redacted(rules, field, EMPTY_EVIDENCE)
            == Object(map["redacted" := Bool(true), "reason" := Str(RedactString(rules, "reason", "empty evidence"))])
    ensures SameShape(EMPTY_EVIDENCE, Redacted(rules, field, EMPTY_EVIDENCE))
  {
    WrittenFieldIsKept("redacted");
    WrittenFieldIsKept("reason");
    EvidenceKeys();
    assert Member(rules, field, "redacted", Bool(true)) == Bool(true);
    assert Member(rules, field, "reason", Str("empty evidence")) == Str(RedactString(rules, "reason", "empty evidence"));
  }

  /** Rewriting a rewritten string changes nothing. */
  ghost predicate Idempotent(rules: Rules) {
    && (forall s :: rules.url(rules.url(s)) == rules.url(s))
    && (forall s :: rules.localPath(rules.localPath(s)) == rules.localPath(s))
    && (forall s :: rules.freeText(rules.freeText(s)) == rules.freeText(s))
    && (forall s :: rules.embedded(rules.embedded(s)) == rules.embedded(s))
    && RedactString(rules, "reason", "empty evidence") == "empty evidence"
  }

  /** So the walk is idempotent whenever the string rewriters are. */
  lemma {:induction false} RedactedTwice(rules: Rules, field: string, j: Json)
    requires Sane(rules) && Idempotent(rules)
    ensures Redacted(rules, field, Redacted(rules, field, j)) == Redacted(rules, field, j)
    decreases j, 1
  {
    match j
    case List(items) =>
      forall i | 0 <= i < |items| ensures Redacted(rules, field, Redacted(rules, field, items[i])) == Redacted(rules, field, items[i]) {
        RedactedTwice(rules, field, items[i]);
      }
    case Object(members) =>
      var once := Redacted(rules, field, j).members;
      var twice := Redacted(rules, field, Object(once)).members;
      forall key | key in once ensures key in twice && twice[key] == once[key] {
        MemberTwice(rules, field, key, members[key]);
      }
      assert twice == once;
    case _ =>
  }

  lemma {:induction false} MemberTwice(rules: Rules, field: string, key: string, j: Json)
    requires Sane(rules) && Idempotent(rules) && Survives(rules, field, key)
    ensures Member(rules, field, key, Member(rules, field, key, j)) == Member(rules, field, key, j)
    decreases j, 2
  {
    if IsEvidenceRaw(rules, field, key) {
      if j.Null? {
        EmptyEvidenceStays(rules, rules.normal(key));
      } else if !j.Str? {
        RedactedTwice(rules, rules.normal(key), j);
      }
    } else if !DispositionOf(rules.normal(key)).Redact? {
      RedactedTwice(rules, rules.normal(key), j);
    }
  }

  // ---- reported changes ----

  /** Some redacted key is reached by the walk. */
  predicate MeetsRedactedKey(rules: Rules, field: string, j: Json)
    decreases j
  {
    match j
    case List(items) => exists i :: 0 <= i < |items| && MeetsRedactedKey(rules, field, items[i])
    case Object(members) =>
      exists key :: key in members && Survives(rules, field, key)
                    && (if IsEvidenceRaw(rules, field, key) || DispositionOf(rules.normal(key)).Keep?
                        then MeetsRedactedKey(rules, rules.normal(key), members[key]) else true)
    case _ => false
  }

  /**
   Exactly when a change is reported: the tree differs, or a redacted key was met, even if it held
   the marker already.  Without a reported change the output is the input.
   */
  lemma {:induction false} ChangedIff(rules: Rules, field: string, j: Json)
    ensures Changed(rules, field, j) <==> Redacted(rules, field, j) != j || MeetsRedactedKey(rules, field, j)
    decreases j, 1
  {
    match j
    case List(items) =>
      forall i | 0 <= i < |items|
        ensures Changed(rules, field, items[i]) <==> Redacted(rules, field, items[i]) != items[i] || MeetsRedactedKey(rules, field, items[i])
      {
        ChangedIff(rules, field, items[i]);
      }
      ListChangedIff(rules, field, items);
    case Object(members) =>
      forall key | key in members
        ensures MemberChanged(rules, field, key, members[key]) <==> MemberMatters(rules, field, key, members[key])
      {
        MemberChangedIff(rules, field, key, members[key]);
      }
      ObjectChangedIff(rules, field, members);
    case _ =>
  }

  lemma ListChangedIff(rules: Rules, field: string, items: seq<Json>)
    ensures Redacted(rules, field, List(items)) != List(items) <==> exists i :: 0 <= i < |items| && Redacted(rules, field, items[i]) != items[i]
  {
    var out := Redacted(rules, field, List(items)).items;
    if forall i :: 0 <= i < |items| ==> Redacted(rules, field, items[i]) == items[i] {
      assert out == items;
    } else {
      var i :| 0 <= i < |items| && Redacted(rules, field, items[i]) != items[i];
      assert out[i] != items[i];
    }
  }

  /** The member goes, becomes another, or meets a redacted key. */
  ghost predicate MemberMatters(rules: Rules, field: string, key: string, j: Json) {
    || !Survives(rules, field, key)
    || Member(rules, field, key, j) != j
    || (if IsEvidenceRaw(rules, field, key) || DispositionOf(rules.normal(key)).Keep?
        then MeetsRedactedKey(rules, rules.normal(key), j) else true)
  }

  lemma {:induction false} MemberChangedIff(rules: Rules, field: string, key: string, j: Json)
    ensures MemberChanged(rules, field, key, j) <==> MemberMatters(rules, field, key, j)
    decreases j, 2
  {
    ChangedIff(rules, rules.normal(key), j);
    if IsEvidenceRaw(rules, field, key) {
      RawChangedIff(rules, key, j);
    }
  }

  lemma RawChangedIff(rules: Rules, key: string, j: Json)
    requires Changed(rules, rules.normal(key), j) <==> Redacted(rules, rules.normal(key), j) != j || MeetsRedactedKey(rules, rules.normal(key), j)
    ensures RawChanged(rules, key, j) <==> RawEvidence(rules, key, j) != j || MeetsRedactedKey(rules, rules.normal(key), j)
  {
  }

  lemma ObjectChangedIff(rules: Rules, field: string, members: map<string, Json>)
    ensures (exists key :: key in members && MemberMatters(rules, field, key, members[key]))
            <==> Redacted(rules, field, Object(members)) != Object(members) || MeetsRedactedKey(rules, field, Object(members))
  {
    var out := Redacted(rules, field, Object(members)).members;
    if forall key :: key in members ==> Survives(rules, field, key) && Member(rules, field, key, members[key]) == members[key] {
      assert out == members;
    } else {
      var key :| key in members && !(Survives(rules, field, key) && Member(rules, field, key, members[key]) == members[key]);
      assert key !in out || out[key] != members[key];
    }
  }

  /** What the callers rely on when they return the source unmodified. */
  lemma UnchangedIsIdentical(rules: Rules, j: Json)
    requires !Changed(rules, "", j)
    ensures Redacted(rules, "", j) == j
  {
    ChangedIff(rules, "", j);
  }
}
