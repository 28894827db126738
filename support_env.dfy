/**
 * `_env_check` of the support bot (tech_support/main.py): the GigaChat client id and secret
 * must be non-empty, unquoted and free of line breaks; every violation is reported, and the
 * reports are joined into the detail of a status-500 error.
 */
module SupportEnv {
  import opened Results
  import opened PyStrings

  const ClientIdKey: string := "GIGACHAT_CLIENT_ID"
  const ClientSecretKey: string := "GIGACHAT_CLIENT_SECRET"

  predicate IsQuote(c: char) {
    c == '\'' || c == '"'
  }

  /** `v.startswith(("'", '"')) or v.endswith(("'", '"'))`. */
  predicate LooksQuoted(v: string) {
    v != [] && (IsQuote(v[0]) || IsQuote(v[|v| - 1]))
  }

  predicate HasLineBreak(v: string) {
    '\n' in v || '\r' in v
  }

  /** A value `_env_check` complains about. */
  predicate Bad(v: string) {
    v == "" || LooksQuoted(v) || HasLineBreak(v)
  }

  /** The complaints about one variable, in the order they are checked. */
  function Violations(key: string, v: string): (msgs: seq<string>)
    ensures msgs == [] <==> !Bad(v)
    ensures v == "" ==> msgs == [key + " is empty"]
    ensures |msgs| <= 2
  {
    (if v == "" then [key + " is empty"] else [])
    + (if LooksQuoted(v) then [key + " looks quoted; remove quotes in env"] else [])
    + (if HasLineBreak(v) then [key + " contains newline; set it without line breaks"] else [])
  }

  /** The complaints about each `(key, value)` entry, in entry order. */
  function AllViolations(entries: seq<(string, string)>): seq<string> {
    if entries == [] then []
    else AllViolations(entries[..|entries| - 1]) + Violations(entries[|entries| - 1].0, entries[|entries| - 1].1)
  }

  /** The checked entries: the client id, then the secret. */
  function Entries(clientId: string, clientSecret: string): seq<(string, string)> {
    [(ClientIdKey, clientId), (ClientSecretKey, clientSecret)]
  }

  /** `_env_check`: `None` when both values pass, otherwise the error it raises. */
  method EnvCheck(clientId: string, clientSecret: string) returns (r: Option<HttpError>)
    ensures r.Some? <==> Bad(clientId) || Bad(clientSecret)
    ensures r.Some? ==> r.value == HttpError(500, Join("; ", Violations(ClientIdKey, clientId) + Violations(ClientSecretKey, clientSecret)))
  {
    var entries := Entries(clientId, clientSecret);
    var bad: seq<string> := [];
    for i := 0 to |entries|
      invariant bad == AllViolations(entries[..i])
    {
      assert entries[..i + 1][..i] == entries[..i];
      var (k, v) := entries[i];
      if v == "" {
        bad := bad + [k + " is empty"];
      }
      if LooksQuoted(v) {
        bad := bad + [k + " looks quoted; remove quotes in env"];
      }
      if HasLineBreak(v) {
        bad := bad + [k + " contains newline; set it without line breaks"];
      }
    }
    assert entries[..2] == entries;
    assert entries[..1] == [(ClientIdKey, clientId)] && entries[..1][..0] == [];
    assert AllViolations(entries[..1]) == Violations(ClientIdKey, clientId);
    assert bad == Violations(ClientIdKey, clientId) + Violations(ClientSecretKey, clientSecret);
    if bad == [] {
      return None;
    }
    return Some(HttpError(500, Join("; ", bad)));
  }

  /** An empty id and a quoted secret: two complaints, id first. */
  lemma EmptyIdQuotedSecret(clientId: string, clientSecret: string)
    requires clientId == "" && clientSecret == "\"s3cret\""
    ensures Violations(ClientIdKey, clientId) + Violations(ClientSecretKey, clientSecret)
            == [ClientIdKey + " is empty", ClientSecretKey + " looks quoted; remove quotes in env"]
  {
    assert !HasLineBreak(clientSecret) by {
      assert forall i :: 0 <= i < |clientSecret| ==> clientSecret[i] != '\n' && clientSecret[i] != '\r';
    }
  }

  /**
   * The values are stripped when they are read, so a line break that reaches the check sits
   * inside the value: it is reported once, for the line break.
   */
  lemma InnerNewline(key: string, v: string, a: string, b: string)
    requires a != "" && b != "" && v == a + "\n" + b
    requires !IsQuote(a[0]) && !IsQuote(b[|b| - 1])
    ensures Violations(key, v) == [key + " contains newline; set it without line breaks"]
  {
    assert v[|a|] == '\n';
    assert v[0] == a[0] && v[|v| - 1] == b[|b| - 1];
  }
}
