/**
 * The OAuth `state` bookkeeping of `VKOAuthService` (api/core/vk_oauth.py): states are
 * issued into an in-memory set, and each validates at most once, leaving the set when it
 * does. A state is the URL-safe base64 encoding of a random token, with the padding removed.
 */
module VkOAuth {
  import opened Results
  import opened PyStrings

  type Byte = x: int | 0 <= x < 256

  // ---------------------------------------------------------------------------------------
  // base64.urlsafe_b64encode(...).rstrip("=")
  // ---------------------------------------------------------------------------------------

  /** The URL-safe base64 alphabet: `A-Z`, `a-z`, `0-9`, `-`, `_`. */
  predicate InAlphabet(c: char) {
    ('A' <= c <= 'Z') || ('a' <= c <= 'z') || ('0' <= c <= '9') || c == '-' || c == '_'
  }

  function B64Char(v: nat): (c: char)
    requires v < 64
    ensures InAlphabet(c)
  {
    if v < 26 then ('A' as int + v) as char
    else if v < 52 then ('a' as int + (v - 26)) as char
    else if v < 62 then ('0' as int + (v - 52)) as char
    else if v == 62 then '-'
    else '_'
  }

  /** Three bytes as four characters. */
  function Group(b0: Byte, b1: Byte, b2: Byte): (s: string)
    ensures |s| == 4 && forall i :: 0 <= i < 4 ==> InAlphabet(s[i])
  {
    [B64Char(b0 / 4), B64Char((b0 % 4) * 16 + b1 / 16), B64Char((b1 % 16) * 4 + b2 / 64), B64Char(b2 % 64)]
  }

  /** The last one or two bytes, with the `=` padding to four characters. */
  function Tail(b: seq<Byte>): (s: string)
    requires 1 <= |b| <= 2
    ensures |s| == 4
    ensures forall i :: 0 <= i < 4 ==> (i <= |b| ==> InAlphabet(s[i])) && (i > |b| ==> s[i] == '=')
  {
    if |b| == 1 then [B64Char(b[0] / 4), B64Char((b[0] % 4) * 16)] + "=="
    else [B64Char(b[0] / 4), B64Char((b[0] % 4) * 16 + b[1] / 16), B64Char((b[1] % 16) * 4)] + "="
  }

  /** `base64.urlsafe_b64encode`: four characters per three bytes, `=`-padded. */
  function UrlSafeB64Encode(b: seq<Byte>): (s: string)
    ensures |s| == 4 * ((|b| + 2) / 3)
    decreases |b|
  {
    if |b| == 0 then ""
    else if |b| <= 2 then Tail(b)
    else Group(b[0], b[1], b[2]) + UrlSafeB64Encode(b[3..])
  }

  /** How many `=` the encoding of `n` bytes ends with. */
  function PadLength(n: nat): nat {
    if n % 3 == 0 then 0 else 3 - n % 3
  }

  lemma PadLengthStep(n: nat)
    requires n >= 3
    ensures PadLength(n - 3) == PadLength(n)
  {
    assert (n - 3) % 3 == n % 3;
  }

  /** The encoding is alphabet characters followed by exactly `PadLength(|b|)` padding marks. */
  lemma {:induction false} EncodeShape(b: seq<Byte>)
    ensures var s := UrlSafeB64Encode(b);
            && PadLength(|b|) <= |s|
            && (forall i :: 0 <= i < |s| - PadLength(|b|) ==> InAlphabet(s[i]))
            && (forall i :: |s| - PadLength(|b|) <= i < |s| ==> s[i] == '=')
    decreases |b|
  {
    var s := UrlSafeB64Encode(b);
    var p := PadLength(|b|);
    if |b| == 0 {
    } else if |b| <= 2 {
      assert s == Tail(b);
      assert p == 3 - |b|;
    } else {
      var g := Group(b[0], b[1], b[2]);
      var rest := UrlSafeB64Encode(b[3..]);
      EncodeShape(b[3..]);
      PadLengthStep(|b|);
      assert s == g + rest;
      assert |s| == 4 + |rest|;
      forall i | 0 <= i < |s|
        ensures i < |s| - p ==> InAlphabet(s[i])
        ensures i >= |s| - p ==> s[i] == '='
      {
        if i >= 4 {
          assert s[i] == rest[i - 4];
        }
      }
    }
  }

  /** `s.rstrip(c)`: drops the trailing copies of `c`. */
  function RStrip(s: string, c: char): (r: string)
    ensures |r| <= |s| && r == s[..|r|]
    ensures r == [] || r[|r| - 1] != c
    ensures forall i :: |r| <= i < |s| ==> s[i] == c
  {
    if s != [] && s[|s| - 1] == c then RStrip(s[..|s| - 1], c) else s
  }

  /** The state made from the UTF-8 bytes of a random token. */
  function StateOf(tokenBytes: seq<Byte>): string {
    RStrip(UrlSafeB64Encode(tokenBytes), '=')
  }

  /** A state is made of URL-safe characters only (so it never ends with `=`) and has no padding. */
  lemma StateShape(tokenBytes: seq<Byte>)
    ensures var st := StateOf(tokenBytes);
            && (forall i :: 0 <= i < |st| ==> InAlphabet(st[i]))
            && |st| == |UrlSafeB64Encode(tokenBytes)| - PadLength(|tokenBytes|)
            && (tokenBytes != [] ==> st != "")
  {
    var s := UrlSafeB64Encode(tokenBytes);
    var p := PadLength(|tokenBytes|);
    EncodeShape(tokenBytes);
    var st := StateOf(tokenBytes);
    if |s| - p > 0 {
      assert s[|s| - p - 1] != '=';
    }
    assert st == [] || st[|st| - 1] == s[|st| - 1];
    if tokenBytes != [] {
      assert |s| >= 4 && p <= 2;
    }
  }

  /** 24 random bytes give a 32-character token, whose encoding is a 43-character state. */
  lemma StateLength(tokenBytes: seq<Byte>)
    requires |tokenBytes| == 32
    ensures |StateOf(tokenBytes)| == 43
  {
    StateShape(tokenBytes);
  }

  // ---------------------------------------------------------------------------------------
  // The issued-state set
  // ---------------------------------------------------------------------------------------

  /** `validate_and_consume_state` on the set `issued`: the answer and the new set. */
  function Consume(issued: set<string>, state: Option<string>): (res: (bool, set<string>))
    ensures res.0 <==> state.Some? && state.value != "" && state.value in issued
    ensures res.1 <= issued
  {
    if state.None? || state.value == "" then (false, issued)
    else if state.value in issued then (true, issued - {state.value})
    else (false, issued)
  }

  /** An issued state validates once; a second validation of it fails. */
  lemma SingleUse(issued: set<string>, state: string)
    requires state != "" && state in issued
    ensures Consume(issued, Some(state)).0
    ensures !Consume(Consume(issued, Some(state)).1, Some(state)).0
  {
  }

  /** Consuming one state leaves every other issued state valid. */
  lemma ConsumeKeepsOthers(issued: set<string>, state: Option<string>, other: string)
    requires other in issued && (state.Some? ==> other != state.value)
    ensures other in Consume(issued, state).1
  {
  }

  /** A failed validation changes nothing. */
  lemma FailedValidationKeepsSet(issued: set<string>, state: Option<string>)
    requires !Consume(issued, state).0
    ensures Consume(issued, state).1 == issued
  {
  }

  /**
   * `VKOAuthService`: its configuration and `_issued_states`.
   */
  class VKOAuthService {
    const clientId: string
    const redirectUri: string
    const apiVersion: string
    var issuedStates: set<string>

    constructor (clientId: string, redirectUri: string, apiVersion: string)
      ensures this.clientId == clientId && this.redirectUri == redirectUri && this.apiVersion == apiVersion
      ensures issuedStates == {}
    {
      this.clientId := clientId;
      this.redirectUri := redirectUri;
      this.apiVersion := apiVersion;
      issuedStates := {};
    }

    /** `_generate_state`, given the UTF-8 bytes of `secrets.token_urlsafe(24)`. */
    method GenerateState(tokenBytes: seq<Byte>) returns (state: string)
      modifies this
      ensures state == StateOf(tokenBytes)
      ensures issuedStates == old(issuedStates) + {state}
    {
      state := RStrip(UrlSafeB64Encode(tokenBytes), '=');
      issuedStates := issuedStates + {state};
    }

    /** `validate_and_consume_state`. */
    method ValidateAndConsumeState(state: Option<string>) returns (ok: bool)
      modifies this
      ensures (ok, issuedStates) == Consume(old(issuedStates), state)
    {
      if state.None? || state.value == "" {
        return false;
      }
      if state.value in issuedStates {
        issuedStates := issuedStates - {state.value};
        return true;
      }
      return false;
    }

    /** `get_authorization_url`: a fresh state is issued and appended to the URL. */
    method GetAuthorizationUrl(tokenBytes: seq<Byte>) returns (url: string, state: string)
      modifies this
      ensures state == StateOf(tokenBytes) && issuedStates == old(issuedStates) + {state}
      ensures url == AuthorizeUrl(clientId, redirectUri, apiVersion, state)
      ensures EndsWith(url, "&state=" + state)
    {
      state := GenerateState(tokenBytes);
      url := AuthorizeUrl(clientId, redirectUri, apiVersion, state);
      AuthorizeUrlEndsWithState(clientId, redirectUri, apiVersion, state);
    }
  }

  /** The authorization URL, its parameters in the order the code writes them. */
  function AuthorizeUrl(clientId: string, redirectUri: string, apiVersion: string, state: string): string {
    "https://oauth.vk.com/authorize?client_id=" + clientId + "&redirect_uri=" + redirectUri
    + "&response_type=code&scope=email&v=" + apiVersion + "&state=" + state
  }

  lemma AuthorizeUrlEndsWithState(clientId: string, redirectUri: string, apiVersion: string, state: string)
    ensures EndsWith(AuthorizeUrl(clientId, redirectUri, apiVersion, state), "&state=" + state)
    ensures StartsWith(AuthorizeUrl(clientId, redirectUri, apiVersion, state), "https://oauth.vk.com/authorize?client_id=" + clientId)
  {
    var url := AuthorizeUrl(clientId, redirectUri, apiVersion, state);
    var head := "https://oauth.vk.com/authorize?client_id=" + clientId + "&redirect_uri=" + redirectUri
                + "&response_type=code&scope=email&v=" + apiVersion;
    assert url == head + ("&state=" + state);
    assert url[|url| - |"&state=" + state|..] == "&state=" + state;
  }

  /** The state handed out with the URL validates exactly once. */
  lemma IssuedStateValidatesOnce(issued: set<string>, tokenBytes: seq<Byte>)
    requires tokenBytes != []
    ensures var st := StateOf(tokenBytes);
            && Consume(issued + {st}, Some(st)).0
            && !Consume(Consume(issued + {st}, Some(st)).1, Some(st)).0
  {
    StateShape(tokenBytes);
  }
}
