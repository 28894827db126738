/**
 * tech_support/to_env.py: writes the support bot's settings into a `.env` file, one
 * `KEY=value` line per known key, quoting the values that need it.
 */
module ToEnv {
  import opened Results
  import opened PyStrings

  /** `ENV_KEYS`, in the order the lines are written. */
  const EnvKeys: seq<string> := [
    "GIGACHAT_CLIENT_ID", "GIGACHAT_CLIENT_SECRET", "GIGACHAT_SCOPE", "GIGACHAT_MODEL",
    "GIGACHAT_TOKEN_URL", "GIGACHAT_CHAT_URL", "REQUEST_TIMEOUT_SECONDS", "RETRIES",
    "INSECURE_SSL", "GIGACHAT_CA_PATH"
  ]

  const ClientIdKey: string := "GIGACHAT_CLIENT_ID"
  const ClientSecretKey: string := "GIGACHAT_CLIENT_SECRET"

  /** `DEFAULTS`. */
  const Defaults: map<string, string> := map[
    "GIGACHAT_SCOPE" := "GIGACHAT_API_PERS",
    "GIGACHAT_MODEL" := "GigaChat",
    "GIGACHAT_TOKEN_URL" := "https://ngw.devices.sberbank.ru:9443/api/v2/oauth",
    "GIGACHAT_CHAT_URL" := "https://gigachat.devices.sberbank.ru/api/v1/chat/completions",
    "REQUEST_TIMEOUT_SECONDS" := "45",
    "RETRIES" := "2",
    "INSECURE_SSL" := "0",
    "GIGACHAT_CA_PATH" := ""
  ]

  /** A character that makes `quote` wrap the value in double quotes. */
  predicate NeedsQuoting(c: char) {
    c == ' ' || c == '#' || c == '=' || c == '"' || c == '\''
  }

  predicate AnyNeedsQuoting(v: string) {
    exists i :: 0 <= i < |v| && NeedsQuoting(v[i])
  }

  /** `v.replace('"', '\\"')`: every double quote gets a backslash in front. */
  function EscapeQuotes(v: string): (r: string)
    ensures |r| >= |v|
  {
    if v == [] then [] else (if v[0] == '"' then "\\\"" else [v[0]]) + EscapeQuotes(v[1..])
  }

  /** `quote`: `None` counts as empty; the value is trimmed and quoted when it needs it. */
  function Quote(v: Option<string>): (r: string)
    ensures var t := Strip(if v.Some? then v.value else "");
            && (!AnyNeedsQuoting(t) ==> r == t)
            && (AnyNeedsQuoting(t) ==> |r| >= 2 && r[0] == '"' && r[|r| - 1] == '"')
  {
    var t := Strip(if v.Some? then v.value else "");
    if AnyNeedsQuoting(t) then "\"" + EscapeQuotes(t) + "\"" else t
  }

  // ---------------------------------------------------------------------------------------
  // Reading a value back with python-dotenv
  // ---------------------------------------------------------------------------------------

  /**
   * The escapes python-dotenv decodes in a double-quoted value: a backslash followed by one
   * of `\\ ' " a b f n r t v` stands for one character.
   */
  function DotenvEscape(c: char): Option<char> {
    if c == '\\' || c == '\'' || c == '"' then Some(c)
    else if c == 'a' then Some('\U{7}')
    else if c == 'b' then Some('\U{8}')
    else if c == 'f' then Some('\U{C}')
    else if c == 'n' then Some('\n')
    else if c == 'r' then Some('\r')
    else if c == 't' then Some('\t')
    else if c == 'v' then Some('\U{B}')
    else None
  }

  /** The escapes of a double-quoted value decoded left to right; another backslash is kept. */
  function DotenvDecode(s: string): string {
    if s == [] then []
    else if |s| >= 2 && s[0] == '\\' && DotenvEscape(s[1]).Some? then [DotenvEscape(s[1]).value] + DotenvDecode(s[2..])
    else [s[0]] + DotenvDecode(s[1..])
  }

  /**
   * The value python-dotenv reads from the text after `KEY=`: the inside of a double-quoted
   * value with its escapes decoded, or an unquoted value as it is.
   */
  function DotenvValue(s: string): string {
    if |s| >= 2 && s[0] == '"' && s[|s| - 1] == '"' then DotenvDecode(s[1..|s| - 1]) else s
  }

  /** The escaped text never starts with a double quote. */
  lemma EscapeQuotesHead(v: string)
    ensures EscapeQuotes(v) == [] || EscapeQuotes(v)[0] != '"'
  {
  }

  /** Replacing `\"` by `"` undoes `EscapeQuotes`. */
  lemma {:induction false} UnescapeQuotes(v: string)
    ensures Replace(EscapeQuotes(v), "\\\"", "\"") == v
    decreases |v|
  {
    if v != [] {
      var rest := EscapeQuotes(v[1..]);
      UnescapeQuotes(v[1..]);
      EscapeQuotesHead(v[1..]);
      var e := EscapeQuotes(v);
      if v[0] == '"' {
        assert e == "\\\"" + rest;
        assert e[2..] == rest;
      } else {
        assert e == [v[0]] + rest;
        assert e[1..] == rest;
        assert !("\\\"" <= e);
      }
      assert v == [v[0]] + v[1..];
    }
  }

  /** python-dotenv undoes `EscapeQuotes` on text without a backslash. */
  lemma {:induction false} DotenvDecodeEscapeQuotes(v: string)
    requires '\\' !in v
    ensures DotenvDecode(EscapeQuotes(v)) == v
    decreases |v|
  {
    if v != [] {
      var rest := EscapeQuotes(v[1..]);
      assert '\\' !in v[1..] by {
        assert forall c :: c in v[1..] ==> c in v;
      }
      DotenvDecodeEscapeQuotes(v[1..]);
      var e := EscapeQuotes(v);
      if v[0] == '"' {
        assert e == "\\\"" + rest;
        assert e[2..] == rest;
      } else {
        assert e == [v[0]] + rest;
        assert e[1..] == rest;
      }
      assert v == [v[0]] + v[1..];
    }
  }

  /**
   * python-dotenv reads back what `quote` wrote, as the trimmed value, when the value holds
   * no backslash.
   */
  lemma QuoteRoundTrip(v: Option<string>)
    requires '\\' !in (if v.Some? then v.value else "")
    ensures DotenvValue(Quote(v)) == Strip(if v.Some? then v.value else "")
  {
    var t := Strip(if v.Some? then v.value else "");
    StripKeepsAbsent(if v.Some? then v.value else "", '\\');
    QuotedNeedsQuoting(t);
    if AnyNeedsQuoting(t) {
      var q := Quote(v);
      assert q[1..|q| - 1] == EscapeQuotes(t);
      DotenvDecodeEscapeQuotes(t);
    }
  }

  /** A value starting with a double quote is one `quote` wraps in quotes. */
  lemma QuotedNeedsQuoting(t: string)
    ensures |t| >= 1 && t[0] == '"' ==> AnyNeedsQuoting(t)
  {
    if |t| >= 1 && t[0] == '"' {
      assert NeedsQuoting(t[0]);
    }
  }

  /**
   * As written, a backslash in a quoted value is not escaped, so python-dotenv reads a
   * backslash followed by one of its escape letters back as a single other character:
   * `C:\new dir` (`a` = `C:`, `c` = `n`, `b` = `ew dir`) comes back with a line feed.
   */
  lemma QuoteMisreadsEscape(a: string, b: string, c: char)
    requires '\\' !in a && '\\' !in b && '"' !in a && '"' !in b && c != '"'
    requires DotenvEscape(c).Some? && DotenvEscape(c).value != '\\'
    requires a != [] && !IsSpace(a[0]) && b != [] && !IsSpace(b[|b| - 1])
    requires AnyNeedsQuoting(a + b)
    ensures var v := a + ['\\', c] + b;
            DotenvValue(Quote(Some(v))) == a + [DotenvEscape(c).value] + b != v
  {
    var v := a + ['\\', c] + b;
    var i :| 0 <= i < |a + b| && NeedsQuoting((a + b)[i]);
    assert NeedsQuoting(v[if i < |a| then i else i + 2]);
    assert '"' !in v;
    QuoteWithoutQuote(v);
    var q := "\"" + v + "\"";
    assert q[1..|q| - 1] == v;
    DecodeMisread(a, b, c);
    assert (a + [DotenvEscape(c).value] + b)[|a|] != v[|a|];
  }

  /** python-dotenv reads one escape between backslash-free texts as one character. */
  lemma DecodeMisread(a: string, b: string, c: char)
    requires '\\' !in a && '\\' !in b && DotenvEscape(c).Some?
    ensures DotenvDecode(a + ['\\', c] + b) == a + [DotenvEscape(c).value] + b
  {
    assert a + ['\\', c] + b == a + (['\\', c] + b);
    DecodePlainPrefix(a, ['\\', c] + b);
    DecodeLeadingEscape(c, b);
    DecodePlain(b);
  }

  /** A trimmed value without a double quote that needs quoting is wrapped as it is. */
  lemma QuoteWithoutQuote(t: string)
    requires t == [] || (!IsSpace(t[0]) && !IsSpace(t[|t| - 1]))
    requires '"' !in t && AnyNeedsQuoting(t)
    ensures Quote(Some(t)) == "\"" + t + "\""
  {
    assert StripLeft(t) == t;
    assert StripRight(t) == t;
    EscapeQuotesWithoutQuote(t);
  }

  /** python-dotenv copies a backslash-free prefix and goes on after it. */
  lemma {:induction false} DecodePlainPrefix(a: string, t: string)
    requires '\\' !in a
    ensures DotenvDecode(a + t) == a + DotenvDecode(t)
    decreases |a|
  {
    if a == [] {
      assert a + t == t;
    } else {
      var s := a + t;
      assert '\\' !in a[1..] by {
        assert forall x :: x in a[1..] ==> x in a;
      }
      assert s[0] == a[0] && s[0] != '\\';
      assert s[1..] == a[1..] + t;
      DecodePlainPrefix(a[1..], t);
      assert DotenvDecode(s) == [a[0]] + (a[1..] + DotenvDecode(t));
      assert [a[0]] + (a[1..] + DotenvDecode(t)) == a + DotenvDecode(t);
    }
  }

  /** python-dotenv leaves text without a backslash unchanged. */
  lemma {:induction false} DecodePlain(s: string)
    requires '\\' !in s
    ensures DotenvDecode(s) == s
    decreases |s|
  {
    if s != [] {
      assert s[0] != '\\' && '\\' !in s[1..] by {
        assert forall x :: x in s[1..] ==> x in s;
      }
      DecodePlain(s[1..]);
      assert s == [s[0]] + s[1..];
    }
  }

  /** python-dotenv decodes an escape at the start of the text as one character. */
  lemma DecodeLeadingEscape(c: char, b: string)
    requires DotenvEscape(c).Some?
    ensures DotenvDecode(['\\', c] + b) == [DotenvEscape(c).value] + DotenvDecode(b)
  {
    var s := ['\\', c] + b;
    assert s[0] == '\\' && s[1] == c && s[2..] == b;
  }

  /** Without a `"` there is nothing to escape. */
  lemma {:induction false} EscapeQuotesWithoutQuote(v: string)
    requires '"' !in v
    ensures EscapeQuotes(v) == v
    decreases |v|
  {
    if v != [] {
      assert '"' !in v[1..] by {
        assert forall c :: c in v[1..] ==> c in v;
      }
      EscapeQuotesWithoutQuote(v[1..]);
      assert v == [v[0]] + v[1..];
    }
  }

  /** The escaping a quoted value needs for python-dotenv: `\\` and `"` both get a backslash. */
  function EscapeForDotenv(v: string): (r: string)
    ensures |r| >= |v|
  {
    if v == [] then []
    else (if v[0] == '"' || v[0] == '\\' then ['\\', v[0]] else [v[0]]) + EscapeForDotenv(v[1..])
  }

  /** `quote` with backslashes escaped as well as double quotes. */
  function QuoteForDotenv(v: Option<string>): string {
    var t := Strip(if v.Some? then v.value else "");
    if AnyNeedsQuoting(t) then "\"" + EscapeForDotenv(t) + "\"" else t
  }

  /** python-dotenv undoes `EscapeForDotenv` on every text. */
  lemma {:induction false} DotenvDecodeEscapeForDotenv(v: string)
    ensures DotenvDecode(EscapeForDotenv(v)) == v
    decreases |v|
  {
    if v != [] {
      var rest := EscapeForDotenv(v[1..]);
      DotenvDecodeEscapeForDotenv(v[1..]);
      var e := EscapeForDotenv(v);
      if v[0] == '"' || v[0] == '\\' {
        assert e == ['\\', v[0]] + rest;
        assert e[2..] == rest;
      } else {
        assert e == [v[0]] + rest;
        assert e[1..] == rest;
      }
      assert v == [v[0]] + v[1..];
    }
  }

  /** With backslashes escaped too, python-dotenv reads back every trimmed value. */
  lemma QuoteForDotenvRoundTrip(v: Option<string>)
    ensures DotenvValue(QuoteForDotenv(v)) == Strip(if v.Some? then v.value else "")
  {
    var t := Strip(if v.Some? then v.value else "");
    QuotedNeedsQuoting(t);
    if AnyNeedsQuoting(t) {
      var q := QuoteForDotenv(v);
      assert q[1..|q| - 1] == EscapeForDotenv(t);
      DotenvDecodeEscapeForDotenv(t);
    }
  }

  /** `os.getenv(key, DEFAULTS.get(key, ""))`. */
  function Lookup(env: map<string, string>, key: string): string {
    if key in env then env[key] else if key in Defaults then Defaults[key] else ""
  }

  /** The value written for `key`: an empty credential becomes its placeholder. */
  function ValueFor(env: map<string, string>, key: string): (v: string)
    ensures Lookup(env, key) != "" ==> v == Lookup(env, key)
  {
    var val := Lookup(env, key);
    if val == "" && (key == ClientIdKey || key == ClientSecretKey) then "<PUT_" + key + "_HERE>"
    else val
  }

  function Line(env: map<string, string>, key: string): string {
    key + "=" + Quote(Some(ValueFor(env, key)))
  }

  /** The lines written for `keys`, in order. */
  function Lines(env: map<string, string>, keys: seq<string>): (ls: seq<string>)
    ensures |ls| == |keys|
  {
    if keys == [] then [] else Lines(env, keys[..|keys| - 1]) + [Line(env, keys[|keys| - 1])]
  }

  /** Line `i` is the line for key `i`. */
  lemma {:induction false} LinesAt(env: map<string, string>, keys: seq<string>, i: int)
    requires 0 <= i < |keys|
    ensures Lines(env, keys)[i] == Line(env, keys[i])
  {
    if i < |keys| - 1 {
      LinesAt(env, keys[..|keys| - 1], i);
    }
  }

  /** The line-building loop of `main` over `keys`, and the file text it makes. */
  method EnvLinesFor(env: map<string, string>, keys: seq<string>) returns (lines: seq<string>, text: string)
    ensures lines == Lines(env, keys)
    ensures text == Join("\n", lines) + "\n"
  {
    lines := [];
    for i := 0 to |keys|
      invariant lines == Lines(env, keys[..i])
    {
      var key := keys[i];
      var val := Lookup(env, key);
      if val == "" {
        if key == ClientIdKey || key == ClientSecretKey {
          val := "<PUT_" + key + "_HERE>";
        }
      }
      assert keys[..i + 1][..i] == keys[..i];
      lines := lines + [key + "=" + Quote(Some(val))];
    }
    assert keys[..|keys|] == keys;
    text := Join("\n", lines) + "\n";
  }

  /** The lines `main` writes, one per key of `EnvKeys`, and the text of `.env`. */
  method EnvFile(env: map<string, string>) returns (lines: seq<string>, text: string)
    ensures lines == Lines(env, EnvKeys) && |lines| == |EnvKeys|
    ensures text == Join("\n", lines) + "\n"
  {
    lines, text := EnvLinesFor(env, EnvKeys);
  }

  /** A trimmed value without a character that needs quoting is written as it is. */
  lemma {:induction false} QuoteKeepsPlain(t: string)
    requires t == [] || (!IsSpace(t[0]) && !IsSpace(t[|t| - 1]))
    requires forall i :: 0 <= i < |t| ==> !NeedsQuoting(t[i])
    ensures Quote(Some(t)) == t
  {
    assert StripLeft(t) == t;
    assert StripRight(t) == t;
  }

  /** The credential keys are upper-case letters and underscores. */
  lemma CredentialKeyChars(key: string)
    requires key == ClientIdKey || key == ClientSecretKey
    ensures forall i :: 0 <= i < |key| ==> ('A' <= key[i] <= 'Z' || key[i] == '_')
  {
  }

  /** An unset or empty credential is written as its placeholder, unquoted. */
  lemma {:induction false} CredentialPlaceholder(env: map<string, string>, key: string, p: string)
    requires key == ClientIdKey || key == ClientSecretKey
    requires key !in env || env[key] == ""
    requires p == "<PUT_" + key + "_HERE>"
    ensures Line(env, key) == key + "=" + p
  {
    assert key !in Defaults;
    assert ValueFor(env, key) == p;
    CredentialKeyChars(key);
    var head := "<PUT_";
    var tail := "_HERE>";
    assert p == head + key + tail;
    forall i | 0 <= i < |p|
      ensures !NeedsQuoting(p[i])
    {
      if i < 5 {
        assert p[i] == head[i];
      } else if i < 5 + |key| {
        assert p[i] == key[i - 5];
      } else {
        assert p[i] == tail[i - 5 - |key|];
      }
    }
    assert p[0] == '<' && p[|p| - 1] == '>';
    QuoteKeepsPlain(p);
  }

  /** An unset key with a plain default is written from its default. */
  lemma {:induction false} DefaultLine(env: map<string, string>, key: string, d: string)
    requires key !in env && key in Defaults && Defaults[key] == d && d != ""
    requires !IsSpace(d[0]) && !IsSpace(d[|d| - 1]) && forall i :: 0 <= i < |d| ==> !NeedsQuoting(d[i])
    ensures Line(env, key) == key + "=" + d
  {
    QuoteKeepsPlain(d);
  }

  /** An unset retry count is written as `RETRIES=2`. */
  lemma RetriesDefault(env: map<string, string>)
    requires "RETRIES" !in env
    ensures Line(env, "RETRIES") == "RETRIES=2"
  {
    DefaultLine(env, "RETRIES", "2");
  }
}
