/**
 * The GigaChat side of the support bot (tech_support/main.py): the message list sent for a
 * chat request, the cached OAuth token with its refresh, and the two bounded retry loops.
 *
 * The network is a parameter: the token endpoint's and the chat endpoint's successive
 * answers are given as sequences, read in order, one per request; a request past the end
 * of a sequence fails like a connection error. The clock is the parameter `now`.
 */
module SupportChat {
  import opened Results

  // ---------------------------------------------------------------------------------------
  // Message list
  // ---------------------------------------------------------------------------------------

  datatype Role = User | Assistant

  function RoleName(r: Role): string {
    match r
    case User => "user"
    case Assistant => "assistant"
  }

  /** One earlier turn of the dialogue, as the request carries it. */
  datatype HistoryTurn = HistoryTurn(role: Role, content: string)

  /** One `{"role": ..., "content": ...}` entry of the payload. */
  datatype ChatMessage = ChatMessage(role: string, content: string)

  /**
   * `_build_messages`: the system prompt, every history turn in order with its role and
   * content, then the user's message.
   */
  method BuildMessages(systemPrompt: string, message: string, history: Option<seq<HistoryTurn>>)
      returns (msgs: seq<ChatMessage>)
    ensures var h := if history.Some? then history.value else [];
            && |msgs| == |h| + 2
            && msgs[0] == ChatMessage("system", systemPrompt)
            && (forall i :: 0 <= i < |h| ==> msgs[i + 1] == ChatMessage(RoleName(h[i].role), h[i].content))
            && msgs[|msgs| - 1] == ChatMessage("user", message)
  {
    msgs := [ChatMessage("system", systemPrompt)];
    if history.Some? && history.value != [] {
      var h := history.value;
      for i := 0 to |h|
        invariant |msgs| == i + 1 && msgs[0] == ChatMessage("system", systemPrompt)
        invariant forall j :: 0 <= j < i ==> msgs[j + 1] == ChatMessage(RoleName(h[j].role), h[j].content)
      {
        msgs := msgs + [ChatMessage(RoleName(h[i].role), h[i].content)];
      }
    }
    msgs := msgs + [ChatMessage("user", message)];
  }

  // ---------------------------------------------------------------------------------------
  // Retry policy and upstream answers
  // ---------------------------------------------------------------------------------------

  /** `RETRIES`: each loop makes at most `Retries + 1` requests. */
  const Retries: nat := 2
  const Attempts: nat := Retries + 1

  /** A token is reused only while it has more than this many seconds left. */
  const ExpiryMargin: real := 60.0

  /** The lifetime assumed when the token answer gives none. */
  const DefaultTokenTtl: int := 900

  /** Statuses after which the request is repeated. */
  predicate Retryable(status: int) {
    status in {408, 409, 429, 500, 502, 503, 504}
  }

  /** Statuses after which the chat call drops the cached token and fetches a new one. */
  predicate AuthRejected(status: int) {
    status == 401 || status == 403
  }

  /**
   * An answer of the token endpoint: its status, its text, and from its JSON the access
   * token (`""` when absent) and `expires_in` (0 when absent); or a connection error,
   * a timeout or a 200 answer of the wrong content type, all of which are retried.
   */
  datatype TokenReply = TokenReply(status: int, text: string, accessToken: string, expiresIn: int) | TokenConnectionError

  /**
   * An answer of the chat endpoint; or a connection error, a timeout or a 200 answer of
   * the wrong content type, all of which are retried.
   */
  datatype ChatReply = ChatReply(status: int, body: string) | ChatConnectionError

  function TokenAt(replies: seq<TokenReply>, k: nat): TokenReply {
    if k < |replies| then replies[k] else TokenConnectionError
  }

  function ChatAt(replies: seq<ChatReply>, k: nat): ChatReply {
    if k < |replies| then replies[k] else ChatConnectionError
  }

  const MissingCredentialsDetail: string := "GIGACHAT_CLIENT_ID / GIGACHAT_CLIENT_SECRET is not set"
  const TokenErrorPrefix: string := "GigaChat token error: "
  const TokenMalformedDetail: string := "Token response malformed"
  const TokenExhaustedDetail: string := "GigaChat token upstream failed after retries"
  const ChatErrorPrefix: string := "GigaChat error: "
  const ChatExhaustedDetail: string := "GigaChat upstream failed after retries"

  /** The result of a token request loop. */
  datatype TokenOutcome = Granted(token: string, ttl: int) | Refused(error: HttpError)

  /**
   * The token loop from attempt `i` on, reading the token endpoint's answers from index
   * `k`: the outcome and the number of requests made.
   */
  function TokenLoop(replies: seq<TokenReply>, k: nat, i: nat): (res: (TokenOutcome, nat))
    requires i <= Attempts
    ensures i + res.1 <= Attempts
    ensures res.0.Granted? ==> res.1 >= 1 && res.0.token != ""
    decreases Attempts - i
  {
    if i == Attempts then (Refused(HttpError(502, TokenExhaustedDetail)), 0)
    else match TokenAt(replies, k)
      case TokenConnectionError =>
        var rest := TokenLoop(replies, k + 1, i + 1);
        (rest.0, rest.1 + 1)
      case TokenReply(status, text, token, expiresIn) =>
        if status == 200 then
          if token == "" then (Refused(HttpError(502, TokenMalformedDetail)), 1)
          else (Granted(token, if expiresIn != 0 then expiresIn else DefaultTokenTtl), 1)
        else if Retryable(status) then
          var rest := TokenLoop(replies, k + 1, i + 1);
          (rest.0, rest.1 + 1)
        else (Refused(HttpError(status, TokenErrorPrefix + text)), 1)
  }

  /** What a token fetch that cannot use the cache does, reading answers from index `k`. */
  function FetchSpec(hasCredentials: bool, replies: seq<TokenReply>, k: nat): (res: (TokenOutcome, nat))
    ensures res.1 <= Attempts
  {
    if !hasCredentials then (Refused(HttpError(500, MissingCredentialsDetail)), 0)
    else TokenLoop(replies, k, 0)
  }

  /**
   * The chat loop from attempt `i` on, reading chat answers from index `i` and token answers
   * from index `k`. A 401 or 403 fetches a new token (which may fail) and uses up the attempt.
   */
  function ChatLoop(hasCredentials: bool, chat: seq<ChatReply>, tokens: seq<TokenReply>, i: nat, k: nat): Result<string, HttpError>
    requires i <= Attempts
    decreases Attempts - i
  {
    if i == Attempts then Err(HttpError(502, ChatExhaustedDetail))
    else match ChatAt(chat, i)
      case ChatConnectionError => ChatLoop(hasCredentials, chat, tokens, i + 1, k)
      case ChatReply(status, body) =>
        if AuthRejected(status) then
          var fetched := FetchSpec(hasCredentials, tokens, k);
          if fetched.0.Refused? then Err(fetched.0.error)
          else ChatLoop(hasCredentials, chat, tokens, i + 1, k + fetched.1)
        else if status == 200 then Ok(body)
        else if Retryable(status) then ChatLoop(hasCredentials, chat, tokens, i + 1, k)
        else Err(HttpError(status, ChatErrorPrefix + body))
  }

  /** `_call_gigachat`, given whether the cached token could be used for the first request. */
  function ChatSpec(cacheHit: bool, hasCredentials: bool, chat: seq<ChatReply>, tokens: seq<TokenReply>): Result<string, HttpError> {
    if cacheHit then ChatLoop(hasCredentials, chat, tokens, 0, 0)
    else
      var fetched := FetchSpec(hasCredentials, tokens, 0);
      if fetched.0.Refused? then Err(fetched.0.error)
      else ChatLoop(hasCredentials, chat, tokens, 0, fetched.1)
  }

  /** The token globals `(_token_value, _token_exp)`. */
  datatype TokenCache = TokenCache(value: Option<string>, exp: real)

  /** The cache after a token request loop at time `now`: a grant is stored with its expiry. */
  function AfterFetch(fetched: TokenOutcome, now: real, cache: TokenCache): (c: TokenCache)
    ensures fetched.Granted? ==> c == TokenCache(Some(fetched.token), now + fetched.ttl as real)
    ensures fetched.Refused? ==> c == cache
  {
    if fetched.Granted? then TokenCache(Some(fetched.token), now + fetched.ttl as real) else cache
  }

  /**
   * The token cache after the chat loop from attempt `i` on (same answers as `ChatLoop`): a
   * 401 or 403 empties the cache and stores the new grant, or leaves it empty when the
   * refresh is refused; any other answer leaves the cache as it is.
   */
  function ChatLoopCache(hasCredentials: bool, chat: seq<ChatReply>, tokens: seq<TokenReply>, i: nat, k: nat,
                         now: real, cache: TokenCache): TokenCache
    requires i <= Attempts
    decreases Attempts - i
  {
    if i == Attempts then cache
    else match ChatAt(chat, i)
      case ChatConnectionError => ChatLoopCache(hasCredentials, chat, tokens, i + 1, k, now, cache)
      case ChatReply(status, body) =>
        if AuthRejected(status) then
          var fetched := FetchSpec(hasCredentials, tokens, k);
          var c := AfterFetch(fetched.0, now, TokenCache(None, 0.0));
          if fetched.0.Refused? then c
          else ChatLoopCache(hasCredentials, chat, tokens, i + 1, k + fetched.1, now, c)
        else if status != 200 && Retryable(status) then ChatLoopCache(hasCredentials, chat, tokens, i + 1, k, now, cache)
        else cache
  }

  /** The token cache after `_call_gigachat` at time `now`, starting from `cache`. */
  function ChatSpecCache(cacheHit: bool, hasCredentials: bool, chat: seq<ChatReply>, tokens: seq<TokenReply>,
                         now: real, cache: TokenCache): TokenCache {
    if cacheHit then ChatLoopCache(hasCredentials, chat, tokens, 0, 0, now, cache)
    else
      var fetched := FetchSpec(hasCredentials, tokens, 0);
      var c := AfterFetch(fetched.0, now, cache);
      if fetched.0.Refused? then c
      else ChatLoopCache(hasCredentials, chat, tokens, 0, fetched.1, now, c)
  }

  // ---------------------------------------------------------------------------------------
  // The client state: _token_value, _token_exp
  // ---------------------------------------------------------------------------------------

  /**
   * The GigaChat client of the support bot: its credentials and the module globals
   * `_token_value` and `_token_exp`. The ghost counters count the requests sent.
   */
  class GigaChatClient {
    const clientId: string
    const clientSecret: string
    var tokenValue: Option<string>
    var tokenExp: real
    ghost var tokenRequests: nat
    ghost var chatRequests: nat

    constructor (clientId: string, clientSecret: string)
      ensures this.clientId == clientId && this.clientSecret == clientSecret
      ensures tokenValue == None && tokenExp == 0.0 && tokenRequests == 0 && chatRequests == 0
    {
      this.clientId := clientId;
      this.clientSecret := clientSecret;
      tokenValue := None;
      tokenExp := 0.0;
      tokenRequests := 0;
      chatRequests := 0;
    }

    predicate HasCredentials() {
      clientId != "" && clientSecret != ""
    }

    /** The cached token may be used at time `now`. */
    predicate CacheHit(now: real)
      reads this
    {
      tokenValue.Some? && tokenValue.value != "" && now < tokenExp - ExpiryMargin
    }

    /**
     * `_fetch_token` at time `now`, reading the token endpoint's answers from index `k`:
     * returns the cached token when it is fresh, and otherwise runs the request loop and
     * caches what it grants. `used` is the number of answers read.
     */
    method FetchToken(now: real, replies: seq<TokenReply>, k: nat) returns (r: Result<string, HttpError>, used: nat)
      modifies this
      ensures chatRequests == old(chatRequests)
      ensures old(CacheHit(now)) ==>
                r == Ok(old(tokenValue).value) && used == 0
                && tokenValue == old(tokenValue) && tokenExp == old(tokenExp) && tokenRequests == old(tokenRequests)
      ensures !old(CacheHit(now)) ==>
                var fetched := FetchSpec(HasCredentials(), replies, k);
                && used == fetched.1 && tokenRequests == old(tokenRequests) + used
                && (fetched.0.Granted? ==>
                      r == Ok(fetched.0.token) && tokenValue == Some(fetched.0.token)
                      && tokenExp == now + fetched.0.ttl as real)
                && (fetched.0.Refused? ==>
                      r == Err(fetched.0.error) && tokenValue == old(tokenValue) && tokenExp == old(tokenExp))
    {
      if CacheHit(now) {
        return Ok(tokenValue.value), 0;
      }
      if !HasCredentials() {
        return Err(HttpError(500, MissingCredentialsDetail)), 0;
      }
      for attempt := 0 to Attempts
        invariant TokenLoop(replies, k, 0).0 == TokenLoop(replies, k + attempt, attempt).0
        invariant TokenLoop(replies, k, 0).1 == attempt + TokenLoop(replies, k + attempt, attempt).1
        invariant tokenRequests == old(tokenRequests) + attempt
        invariant tokenValue == old(tokenValue) && tokenExp == old(tokenExp) && chatRequests == old(chatRequests)
      {
        tokenRequests := tokenRequests + 1;
        var reply := TokenAt(replies, k + attempt);
        if reply.TokenConnectionError? {
          continue;
        }
        if reply.status == 200 {
          if reply.accessToken == "" {
            return Err(HttpError(502, TokenMalformedDetail)), attempt + 1;
          }
          tokenValue := Some(reply.accessToken);
          tokenExp := now + (if reply.expiresIn != 0 then reply.expiresIn else DefaultTokenTtl) as real;
          return Ok(reply.accessToken), attempt + 1;
        } else if Retryable(reply.status) {
          continue;
        } else {
          return Err(HttpError(reply.status, TokenErrorPrefix + reply.text)), attempt + 1;
        }
      }
      return Err(HttpError(502, TokenExhaustedDetail)), Attempts;
    }

    /**
     * `_call_gigachat` at time `now`: fetches a token, then makes at most `Attempts` chat
     * requests; a 401 or 403 drops the cached token and fetches a new one.
     */
    method CallGigaChat(now: real, chat: seq<ChatReply>, tokens: seq<TokenReply>) returns (r: Result<string, HttpError>)
      modifies this
      ensures r == ChatSpec(old(CacheHit(now)), HasCredentials(), chat, tokens)
      ensures chatRequests <= old(chatRequests) + Attempts
      ensures TokenCache(tokenValue, tokenExp)
              == ChatSpecCache(old(CacheHit(now)), HasCredentials(), chat, tokens, now, TokenCache(old(tokenValue), old(tokenExp)))
    {
      ghost var spec := ChatSpec(CacheHit(now), HasCredentials(), chat, tokens);
      ghost var specCache := ChatSpecCache(CacheHit(now), HasCredentials(), chat, tokens, now, TokenCache(tokenValue, tokenExp));
      var t, k := FetchToken(now, tokens, 0);
      if t.Err? {
        return Err(t.error);
      }
      for attempt := 0 to Attempts
        invariant spec == ChatLoop(HasCredentials(), chat, tokens, attempt, k)
        invariant specCache == ChatLoopCache(HasCredentials(), chat, tokens, attempt, k, now, TokenCache(tokenValue, tokenExp))
        invariant chatRequests == old(chatRequests) + attempt
      {
        chatRequests := chatRequests + 1;
        var reply := ChatAt(chat, attempt);
        if reply.ChatConnectionError? {
          continue;
        }
        if AuthRejected(reply.status) {
          ghost var fetched := FetchSpec(HasCredentials(), tokens, k);
          tokenValue, tokenExp := None, 0.0;
          assert !CacheHit(now);
          var t2, n := FetchToken(now, tokens, k);
          assert TokenCache(tokenValue, tokenExp) == AfterFetch(fetched.0, now, TokenCache(None, 0.0));
          if t2.Err? {
            return Err(t2.error);
          }
          k := k + n;
          continue;
        }
        if reply.status == 200 {
          return Ok(reply.body);
        }
        if Retryable(reply.status) {
          continue;
        }
        return Err(HttpError(reply.status, ChatErrorPrefix + reply.body));
      }
      return Err(HttpError(502, ChatExhaustedDetail));
    }
  }

  // ---------------------------------------------------------------------------------------
  // Properties of the retry loops
  // ---------------------------------------------------------------------------------------

  /** A granted token comes from a 200 answer carrying it, after only retryable failures. */
  lemma {:induction false} TokenGrantedFrom200(replies: seq<TokenReply>, k: nat, i: nat)
    requires i <= Attempts
    ensures var res := TokenLoop(replies, k, i);
            res.0.Granted? ==>
              && TokenAt(replies, k + res.1 - 1).TokenReply?
              && TokenAt(replies, k + res.1 - 1).status == 200
              && TokenAt(replies, k + res.1 - 1).accessToken == res.0.token
              && (forall j :: k <= j < k + res.1 - 1 ==>
                    TokenAt(replies, j).TokenConnectionError? || Retryable(TokenAt(replies, j).status))
    decreases Attempts - i
  {
    if i < Attempts {
      var reply := TokenAt(replies, k);
      if reply.TokenConnectionError? || (reply.status != 200 && Retryable(reply.status)) {
        TokenGrantedFrom200(replies, k + 1, i + 1);
      }
    }
  }

  /** The token lifetime is `expires_in`, or 900 seconds when it is 0 or absent. */
  lemma {:induction false} TokenTtl(replies: seq<TokenReply>, k: nat, i: nat)
    requires i <= Attempts
    ensures var res := TokenLoop(replies, k, i);
            res.0.Granted? ==>
              var e := TokenAt(replies, k + res.1 - 1).expiresIn;
              res.0.ttl == if e == 0 then DefaultTokenTtl else e
    decreases Attempts - i
  {
    TokenGrantedFrom200(replies, k, i);
    if i < Attempts {
      var reply := TokenAt(replies, k);
      if reply.TokenConnectionError? || (reply.status != 200 && Retryable(reply.status)) {
        TokenTtl(replies, k + 1, i + 1);
      }
    }
  }

  /** When every answer is a retryable failure, all attempts are used and the fetch is a 502. */
  lemma {:induction false} TokenRetriesExhausted(replies: seq<TokenReply>, k: nat, i: nat)
    requires i <= Attempts
    requires forall j :: k <= j < k + Attempts - i ==>
               TokenAt(replies, j).TokenConnectionError? || (TokenAt(replies, j).status != 200 && Retryable(TokenAt(replies, j).status))
    ensures TokenLoop(replies, k, i) == (Refused(HttpError(502, TokenExhaustedDetail)), Attempts - i)
    decreases Attempts - i
  {
    if i < Attempts {
      TokenRetriesExhausted(replies, k + 1, i + 1);
    }
  }

  /** A status that is neither 200 nor retryable ends the token loop at once with that status. */
  lemma TokenRejectedAtOnce(replies: seq<TokenReply>, k: nat, i: nat)
    requires i < Attempts && TokenAt(replies, k).TokenReply?
    requires TokenAt(replies, k).status != 200 && !Retryable(TokenAt(replies, k).status)
    ensures TokenLoop(replies, k, i).1 == 1
    ensures TokenLoop(replies, k, i).0.Refused? && TokenLoop(replies, k, i).0.error.status == TokenAt(replies, k).status
  {
  }

  /** An answer is only ever a chat answer with status 200, read within the attempts. */
  lemma {:induction false} ChatOkFrom200(hasCredentials: bool, chat: seq<ChatReply>, tokens: seq<TokenReply>, i: nat, k: nat)
    requires i <= Attempts
    ensures ChatLoop(hasCredentials, chat, tokens, i, k).Ok? ==>
              exists j :: i <= j < Attempts && ChatAt(chat, j) == ChatReply(200, ChatLoop(hasCredentials, chat, tokens, i, k).value)
    decreases Attempts - i
  {
    if i < Attempts {
      var reply := ChatAt(chat, i);
      if reply.ChatConnectionError? {
        ChatOkFrom200(hasCredentials, chat, tokens, i + 1, k);
      } else if AuthRejected(reply.status) {
        var fetched := FetchSpec(hasCredentials, tokens, k);
        if fetched.0.Granted? {
          ChatOkFrom200(hasCredentials, chat, tokens, i + 1, k + fetched.1);
        }
      } else if reply.status != 200 && Retryable(reply.status) {
        ChatOkFrom200(hasCredentials, chat, tokens, i + 1, k);
      }
    }
  }

  /**
   * Token refreshes do not add attempts: when every chat answer is a 401 or 403 and every
   * refresh succeeds at its first request, the call fails with 502 after `Attempts` chat
   * requests.
   */
  lemma {:induction false} AuthRejectionsExhaust(chat: seq<ChatReply>, tokens: seq<TokenReply>, i: nat, k: nat)
    requires i <= Attempts
    requires forall j :: i <= j < Attempts ==> ChatAt(chat, j).ChatReply? && AuthRejected(ChatAt(chat, j).status)
    requires forall j :: k <= j < k + Attempts - i ==>
               TokenAt(tokens, j).TokenReply? && TokenAt(tokens, j).status == 200 && TokenAt(tokens, j).accessToken != ""
    ensures ChatLoop(true, chat, tokens, i, k) == Err(HttpError(502, ChatExhaustedDetail))
    decreases Attempts - i
  {
    if i < Attempts {
      assert TokenLoop(tokens, k, 0).1 == 1;
      AuthRejectionsExhaust(chat, tokens, i + 1, k + 1);
    }
  }

  /** When every chat answer is a retryable failure, the call fails with 502. */
  lemma {:induction false} ChatRetriesExhausted(hasCredentials: bool, chat: seq<ChatReply>, tokens: seq<TokenReply>, i: nat, k: nat)
    requires i <= Attempts
    requires forall j :: i <= j < Attempts ==>
               ChatAt(chat, j).ChatConnectionError? || (ChatAt(chat, j).status != 200 && !AuthRejected(ChatAt(chat, j).status) && Retryable(ChatAt(chat, j).status))
    ensures ChatLoop(hasCredentials, chat, tokens, i, k) == Err(HttpError(502, ChatExhaustedDetail))
    decreases Attempts - i
  {
    if i < Attempts {
      ChatRetriesExhausted(hasCredentials, chat, tokens, i + 1, k);
    }
  }

  /** A 200 answer after only retryable failures is the call's answer. */
  lemma {:induction false} ChatOkAt200(hasCredentials: bool, chat: seq<ChatReply>, tokens: seq<TokenReply>, i: nat, j: nat, k: nat)
    requires i <= j < Attempts && ChatAt(chat, j).ChatReply? && ChatAt(chat, j).status == 200
    requires forall m :: i <= m < j ==>
               ChatAt(chat, m).ChatConnectionError? || (ChatAt(chat, m).status != 200 && !AuthRejected(ChatAt(chat, m).status) && Retryable(ChatAt(chat, m).status))
    ensures ChatLoop(hasCredentials, chat, tokens, i, k) == Ok(ChatAt(chat, j).body)
    decreases j - i
  {
    if i < j {
      ChatOkAt200(hasCredentials, chat, tokens, i + 1, j, k);
    }
  }

  /** A status that is neither 200, 401, 403 nor retryable ends the chat loop at once with that status. */
  lemma ChatRejectedAtOnce(hasCredentials: bool, chat: seq<ChatReply>, tokens: seq<TokenReply>, i: nat, k: nat)
    requires i < Attempts && ChatAt(chat, i).ChatReply?
    requires ChatAt(chat, i).status != 200 && !AuthRejected(ChatAt(chat, i).status) && !Retryable(ChatAt(chat, i).status)
    ensures ChatLoop(hasCredentials, chat, tokens, i, k) == Err(HttpError(ChatAt(chat, i).status, ChatErrorPrefix + ChatAt(chat, i).body))
  {
  }

  /** Without a 401 or 403 answer the chat loop leaves the token cache as it is. */
  lemma {:induction false} ChatCacheKeptWithoutRejection(hasCredentials: bool, chat: seq<ChatReply>, tokens: seq<TokenReply>,
                                                         i: nat, k: nat, now: real, cache: TokenCache)
    requires i <= Attempts
    requires forall j :: i <= j < Attempts ==> !(ChatAt(chat, j).ChatReply? && AuthRejected(ChatAt(chat, j).status))
    ensures ChatLoopCache(hasCredentials, chat, tokens, i, k, now, cache) == cache
    decreases Attempts - i
  {
    if i < Attempts {
      ChatCacheKeptWithoutRejection(hasCredentials, chat, tokens, i + 1, k, now, cache);
    }
  }

  /**
   * After the chat loop the cache is the one it started with, or empty after a refused
   * refresh, or holds a non-empty token that a 200 token answer granted, with its expiry.
   */
  lemma {:induction false} ChatCacheFromGrant(hasCredentials: bool, chat: seq<ChatReply>, tokens: seq<TokenReply>,
                                              i: nat, k: nat, now: real, cache: TokenCache)
    requires i <= Attempts
    ensures var c := ChatLoopCache(hasCredentials, chat, tokens, i, k, now, cache);
            || c == cache
            || c == TokenCache(None, 0.0)
            || (c.value.Some? && c.value.value != "" &&
                exists j :: k <= j && TokenAt(tokens, j).TokenReply? && TokenAt(tokens, j).status == 200
                  && TokenAt(tokens, j).accessToken == c.value.value
                  && c.exp == now + (if TokenAt(tokens, j).expiresIn == 0 then DefaultTokenTtl else TokenAt(tokens, j).expiresIn) as real)
    decreases Attempts - i
  {
    if i < Attempts {
      var reply := ChatAt(chat, i);
      if reply.ChatConnectionError? || (!AuthRejected(reply.status) && reply.status != 200 && Retryable(reply.status)) {
        ChatCacheFromGrant(hasCredentials, chat, tokens, i + 1, k, now, cache);
      } else if AuthRejected(reply.status) {
        var fetched := FetchSpec(hasCredentials, tokens, k);
        if fetched.0.Granted? {
          var g := TokenCache(Some(fetched.0.token), now + fetched.0.ttl as real);
          TokenGrantedFrom200(tokens, k, 0);
          TokenTtl(tokens, k, 0);
          var c := ChatLoopCache(hasCredentials, chat, tokens, i + 1, k + fetched.1, now, g);
          ChatCacheFromGrant(hasCredentials, chat, tokens, i + 1, k + fetched.1, now, g);
          if c == g {
            assert TokenAt(tokens, k + fetched.1 - 1).accessToken == c.value.value;
          }
        }
      }
    }
  }
}
