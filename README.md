# Skill recommendation, label prediction and support-bot helpers, modelled in Dafny

This project models the logic at the centre of a student-communities platform:

- The ML service (`ml/server.py`) turns a free-text description into labels with a
  threshold-per-label classifier. It also recommends communities and posts for a list of
  skills. The recommender normalises skill tokens and builds a per-request vocabulary. It
  then encodes catalog objects and the query as one-hot vectors with "implies c++" hint
  tokens, scores them by cosine, and ranks them by score, then popularity, then row order.
  The catalog comes from a paginated HTTP API behind a time-boxed cache.
- The support bot (`tech_support/main.py`) validates its GigaChat credentials and decodes
  backslash escapes in replies. It also assembles the chat message list and keeps a cached
  OAuth token. Two retry loops bound the number of upstream requests.
- `tech_support/to_env.py` writes the bot's `.env` file and quotes the values that need it.
- The API's VK OAuth service (`api/core/vk_oauth.py`) keeps a set of issued single-use
  `state` values.
- The API's upload service (`api/core/file_upload.py`) validates and names uploaded images
  and maps their URLs back to paths.
- The comment schemas (`api/core/schemas/comment.py`) normalise `parent_comment_id` and
  flatten replies to one level.

Modules:

| file | module | models |
|---|---|---|
| results.dfy | `Results` | `Option`, `Result`, and an HTTP error (status and detail) |
| pystrings.dfy | `PyStrings` | Python's `strip`, `replace`, `startswith`/`endswith`, `join` and `str(int)` |
| normalize.dfy | `TokenNormalizer` | `_normalize_text`, `_norm_token`, `_norm_list` |
| catalog.dfy | `Catalog` | catalog objects, `_get_all`, the caches of `_get_communities`/`_get_posts` |
| vocab.dfy | `Vocabulary` | `_build_vocab` |
| vectorize.dfy | `Vectorizer` | `_one_hot_matrix`, `_skills_to_vec` |
| ranking.dfy | `Ranker` | `_cosine_scores`, the `lexsort` order, `max(1, limit or 50)` |
| recommend.dfy | `Recommender` | `predict_communities` / `predict_posts` |
| classifier.dfy | `Classifier` | `load_artifacts`, `predict_labels`, `predict` |
| support_env.dfy | `SupportEnv` | `_env_check` |
| escapes.dfy | `Escapes` | `_decode_backslash_escapes` |
| gigachat.dfy | `SupportChat` | `_build_messages`, `_fetch_token`, `_call_gigachat` |
| to_env.dfy | `ToEnv` | `quote` and the line loop of `main` |
| vk_oauth.dfy | `VkOAuth` | `_generate_state`, `validate_and_consume_state`, `get_authorization_url` |
| file_upload.dfy | `FileUpload` | `_upload_image`, `delete_file` |
| comment_schema.dfy | `CommentSchema` | `_normalize_parent_id`, `_coerce_replies_before`, `_serialize_replies` |

State that the source changes in place is modelled by classes:

- the classifier globals `PIPE`/`LABELS`/`THRESHOLDS` (`Classifier.ArtifactStore`);
- the cache slots `_cache_comm`/`_cache_posts` (`Catalog.CatalogCache`);
- the token globals `_token_value`/`_token_exp` (`SupportChat.GigaChatClient`);
- `_issued_states` (`VkOAuth.VKOAuthService`);
- the upload directory, modelled as the set of stored paths (`FileUpload.FileUploadService`).

The loops of the source are methods with loop invariants. Each is proved equal to a
function, and the properties are proved about that function.

External inputs are parameters:

- the clock is `now`;
- `uuid4().hex` and the bytes of `secrets.token_urlsafe(24)` are given;
- the fitted classifier is a function from text to per-label probabilities;
- the catalog API's pages and the GigaChat endpoints' answers are sequences, one answer per
  request in order.

Two properties one would expect of the service do not hold for the code, and the model
follows the code:

- Text normalisation is not idempotent. `_normalize_text` is not: it
  composes once and then folds `ё` to `е`. So `е` followed by two combining diaeresis
  marks becomes `е` with one mark, and normalising that again gives plain `е`
  (`TokenNormalizer.NormalizeTextNotIdempotent`). Under the modelled compositions,
  idempotence is proved for text without a combining diaeresis
  (`TokenNormalizer.NormalizeTextIdempotent`). Full Unicode NFC breaks it on more inputs
  (see "## Left out").
- A second prediction after a successful load can reload.
  `predict_labels` reloads whenever `LABELS` is empty, so an artifacts directory with an
  empty label list is reloaded on every call (`Classifier.ArtifactStore.PredictLabels`).

## Model

| member | source | states |
|---|---|---|
| TokenNormalizer.Nfc | ml/server.py:63 | under the modelled compositions, NFC never lengthens the text and leaves no composable pair; every non-composite character of the result comes from the input |
| TokenNormalizer.NfcIdempotent | ml/server.py:63 | composing twice is composing once |
| TokenNormalizer.FoldYo | ml/server.py:64 | every `ё` becomes `е` and no other character changes, so no `ё` remains |
| TokenNormalizer.FoldYoIsReplace | ml/server.py:64 | the character-wise fold equals Python's `str.replace("ё", "е")` |
| TokenNormalizer.Lower | ml/server.py:70 | lower-casing keeps the length and maps each character on its own |
| TokenNormalizer.LowerCharIdempotent | ml/server.py:70 | lower-casing a lower-cased character changes nothing |
| TokenNormalizer.NormalizeText | ml/server.py:60-65 | a non-string gives `""`; otherwise the result has no `ё` and no surrounding whitespace, and under the modelled compositions it is no longer than the input |
| TokenNormalizer.NormalizeTextIdempotent | ml/server.py:60-65 | under the modelled compositions, on text without a combining diaeresis, normalising the output again changes nothing |
| TokenNormalizer.NormalizeTextNotIdempotent | ml/server.py:60-65 | `е` + two diaereses normalises to `е` + one diaeresis, which normalises to `е`: not idempotent in general |
| TokenNormalizer.FoldTokenShape | ml/server.py:70-71 | the folded token is lower-cased, has no `ё`, and has the length of the stripped composed input |
| TokenNormalizer.SynonymShape | ml/server.py:72-79 | the synonym table keeps tokens lower-cased and `ё`-free, and maps only `""` to `""` |
| TokenNormalizer.NormTokenShape | ml/server.py:67-79 | the contract of `NormToken`, the model of `_norm_token`: a non-string gives `""`; otherwise the token is trimmed, lower-cased and `ё`-free, and empty iff the stripped composed input is empty |
| TokenNormalizer.NormTokenTrimmed | ml/server.py:70-79 | the token has no whitespace at either end |
| TokenNormalizer.SynonymIsTableLookup | ml/server.py:72-79 | the synonym step is a lookup in the table, keeping tokens outside it |
| TokenNormalizer.SynonymExample | ml/server.py:72-79 | a plain ASCII token whose lower-cased form is in the table normalises to its canonical spelling |
| TokenNormalizer.CppSpellingsCollapse | ml/server.py:72-79 | `C++`, `cpp` and `c plus plus` all normalise to `c++` |
| TokenNormalizer.NormListSpec | ml/server.py:81-88 | the token list has no empty string, no repeats, and is no longer than the input |
| TokenNormalizer.NormList | ml/server.py:81-88 | the loop with `out`/`seen` returns exactly `NormListSpec` |
| TokenNormalizer.NormListMembers | ml/server.py:81-88 | a token is listed iff it is non-empty and some entry normalises to it |
| TokenNormalizer.NormListFirstOccurrenceOrder | ml/server.py:81-88 | listed tokens appear in the order of their first occurrence among the normalised entries |
| TokenNormalizer.NormListStep | ml/server.py:84-87 | one more entry appends its token iff the token is non-empty and not yet listed |
| TokenNormalizer.DedupDropsRepeat | ml/server.py:85 | a later token equal to an already listed one is dropped, and a new one after it is kept |
| TokenNormalizer.NormListExample | ml/server.py:81-88 | `["C++", "cpp", "Python"]` gives `["c++", "python"]` |
| Catalog.Popularity | ml/server.py:226 | a present `member_count` wins (null gives 0), else `like_count`, else 0 |
| Catalog.GetAll | ml/server.py:164-186 | the paging loop returns the outcome `FetchFrom(replies, 0)`, requesting `skip = k * 100` at step `k` |
| Catalog.FetchOkShape | ml/server.py:170-185 | a successful fetch ends at a short or non-list page, after only full pages |
| Catalog.FetchCollectsPages | ml/server.py:180-185 | full pages followed by an ending page give the concatenation of those pages, in order |
| Catalog.FetchFailsOnStatus | ml/server.py:173-175 | a non-200 answer after full pages fails the fetch with that status and body |
| Catalog.PrependTwice | ml/server.py:182 | helper of the `GetAll` loop: extending the items page by page regroups associatively, which ties the loop's accumulated items to `FetchFrom` |
| Catalog.CatalogCache.constructor | ml/server.py:54-55 | a slot starts with `ts = 0.0` and no items |
| Catalog.CatalogCache.Get | ml/server.py:188-200 | refetches iff `now - ts > 60`; a fresh slot returns its items unchanged; a failed fetch leaves items and `ts` untouched |
| Catalog.ReadTwiceWithinTtl | ml/server.py:188-193 | two reads within the TTL of a successful refresh fetch once and return the same items |
| Vocabulary.BuildVocab | ml/server.py:205-212 | the loop returns `VocabSpec`, the tokens added object by object |
| Vocabulary.AddTokensProps | ml/server.py:209-211 | adding tokens keeps the indices exactly `0..n-1`, keeps old indices, and numbers new tokens from the old size |
| Vocabulary.VocabValid | ml/server.py:205-212 | the indices are exactly `0..|vocab|-1`, each used once |
| Vocabulary.VocabKeys | ml/server.py:205-212 | a token is in the vocabulary iff it is a normalised skill of some object |
| Vocabulary.NoEmptyToken | ml/server.py:205-212 | `""` is never a token |
| Vocabulary.VocabPrefixStable | ml/server.py:208-211 | first-seen order: tokens of earlier objects keep their indices, and later tokens get larger ones |
| Vocabulary.AddTokensIndex | ml/server.py:209-211 | within one object, a token new at its turn gets the size of the vocabulary at that moment, so the object's new skills are numbered in their order |
| Vocabulary.VocabIndex | ml/server.py:205-212 | skill `j` of object `i`, new at its turn, gets the number of distinct tokens seen before it (earlier objects, then earlier skills of object `i`) as its index in the full vocabulary |
| Vectorizer.Row | ml/server.py:227-235 | a row has one entry per vocabulary token, each 0 or 1 |
| Vectorizer.OneHotRows | ml/server.py:214-236 | no object or an empty vocabulary gives no rows; otherwise one 0/1 row of width `|vocab|` per object |
| Vectorizer.QueryVec | ml/server.py:238-249 | the query vector has width `|vocab|` and 0/1 entries |
| Vectorizer.OneHotMatrix | ml/server.py:214-236 | the array-writing loops fill exactly `OneHotRows`, the ids and the popularity columns |
| Vectorizer.FillRow | ml/server.py:227-235 | the inner loop sets row `i` to `Row` and touches no other row |
| Vectorizer.FillObject | ml/server.py:224-235 | one pass of the outer loop: row `i` becomes the object's one-hot row, and its id and popularity are stored; other rows are untouched |
| Vectorizer.SkillsToVec | ml/server.py:238-249 | the loop fills exactly `QueryVec` |
| Vectorizer.SkillColumnSet | ml/server.py:227-230 | every normalised skill of object `i` has a column, set to 1 in row `i` |
| Vectorizer.ArduinoSetsCpp | ml/server.py:232-235 | an object with `arduino` has its `c++` column set when `c++` is a token |
| Vectorizer.QueryHintSetsCpp | ml/server.py:245-248 | `arduino`, `олимпиадная информатика` or `codeforces` in the query sets the `c++` column |
| Vectorizer.UnknownTokenIgnored | ml/server.py:228-230 | a token outside the vocabulary and the hints changes no column |
| Ranker.CosineScores | ml/server.py:251-260 | no rows or width 0 gives no scores; otherwise one score per row |
| Ranker.ZeroQueryScoresZero | ml/server.py:254-256 | a zero query scores every row 0 |
| Ranker.ZeroRowScoresZero | ml/server.py:257-260 | a zero row scores 0 (its dot is 0 over the `1e-8` norm) |
| Ranker.OneHotDot | ml/server.py:257 | for 0/1 vectors the dot product is at most either squared norm |
| Ranker.OneHotCosineOfBounds | ml/server.py:257-260 | the cosine of a 0/1 row and a 0/1 query lies in `[0, 1]` |
| Ranker.OneHotCosineBounds | ml/server.py:251-260 | over 0/1 vectors every cosine lies in `[0, 1]` |
| Ranker.BeforeTotal | ml/server.py:287 | the `lexsort` order puts exactly one of two distinct rows first |
| Ranker.BeforeTransitive | ml/server.py:287 | the `lexsort` order is transitive |
| Ranker.Order | ml/server.py:287 | the ordering lists each of the rows `0..n-1` once |
| Ranker.OrderSorted | ml/server.py:287 | the ordering is sorted by score, then popularity, then row number, with distinct rows |
| Ranker.TakeCount | ml/server.py:288 | `k >= 1`; `None` or 0 gives 50, a positive limit itself, a negative limit 1 |
| Ranker.RankedProps | ml/server.py:287-290 | `min(k, N)` entries, each the id and score of a distinct row, in ranking order; every row left out ranks after every row listed |
| Ranker.PopularityBreaksTies | ml/server.py:287 | with equal scores the more popular row comes first |
| Recommender.RankObjects | ml/server.py:280-290 | the pipeline vocabulary, matrix, query, scores and ranking returns `Recommendations` |
| Recommender.Recommend | ml/server.py:277-292 | answers from the cache slot's snapshot (refetched when stale); any failure is status 500; the slot fetches once iff stale, keeps its items and `ts` when fresh or when the fetch fails, and takes the fetched items with `ts = now` otherwise |
| Recommender.NoTokensNoAnswer | ml/server.py:284-285 | with no skill token in the snapshot the answer is `[]` |
| Recommender.AnswerShape | ml/server.py:280-290 | otherwise `min(k, N)` distinct objects with their own ids and scores, in ranking order, the omitted ones ranking after |
| Recommender.WorkedExample | ml/server.py:277-290 | one object (Python, C++) and the query Python give one answer with cosine `1/sqrt(2)` |
| Classifier.MissingFiles | ml/server.py:101 | no name is missing iff both files exist; each file is listed iff it is missing |
| Classifier.KeptThresholds | ml/server.py:116-122 | thresholds are kept iff the file exists with shape `(len(LABELS),)` |
| Classifier.Thresholds | ml/server.py:140 | without kept thresholds every label gets `DEFAULT_THR` |
| Classifier.SelectedIff | ml/server.py:142 | a label is selected iff its probability is at least its threshold |
| Classifier.SelectedIncreasing | ml/server.py:142 | `np.where` lists the selected indices once each, in increasing order |
| Classifier.SortByProb | ml/server.py:145 | the sort is a permutation of the selected indices |
| Classifier.SortByProbSorted | ml/server.py:145 | the sorted indices have non-increasing probabilities |
| Classifier.SelectLabelsProps | ml/server.py:142-146 | the answer lists each label reaching its threshold exactly once, most probable first, and nothing else |
| Classifier.DefaultThresholdSelects | ml/server.py:140-142 | with no thresholds a label is selected iff its probability is at least 0.5 |
| Classifier.ArtifactStore.constructor | ml/server.py:50-52 | no model, no labels, no thresholds |
| Classifier.ArtifactStore.LoadArtifacts | ml/server.py:93-122 | missing files change nothing; otherwise model and labels are loaded, and thresholds kept only with one per label |
| Classifier.ArtifactStore.PredictLabels | ml/server.py:130-146 | reloads when no model or no labels; an empty normalised text gives `[]` without a model call; otherwise exactly the threshold selection, most probable first; afterwards the store holds the loaded labels and kept thresholds when a reload found both files, and is unchanged otherwise |
| Classifier.ArtifactStore.Predict | ml/server.py:148-155 | missing artifacts on reload give status 500 with their message; an empty normalised text gives `[]`; otherwise the threshold selection, or status 500 when the model's output has the wrong length; the store changes as in `predict_labels` |
| Classifier.ErrorResponse | ml/server.py:148-155 | status 500, the missing-artifacts text or `Internal error: ` |
| SupportEnv.Violations | tech_support/main.py:171-176 | no complaint iff the value is non-empty, unquoted and free of line breaks; an empty value gives exactly the "is empty" complaint |
| SupportEnv.EnvCheck | tech_support/main.py:165-178 | raises 500 iff the id or the secret is bad, with the complaints joined by `"; "`, id first |
| SupportEnv.EmptyIdQuotedSecret | tech_support/main.py:171-174 | an empty id and a quoted secret give two complaints, id first |
| SupportEnv.InnerNewline | tech_support/main.py:171-176 | a line break inside a value (the values are stripped when read, lines 19-20) gives the newline complaint alone |
| Escapes.UnicodeEscapes | tech_support/main.py:187-193 | the rewritten text is never longer than the input: each six-character escape becomes one character |
| Escapes.UnicodeEscapesNoBackslash | tech_support/main.py:187-193 | text without a backslash has no `\uXXXX` to rewrite |
| Escapes.UnicodeEscapeOfChar | tech_support/main.py:187-193 | `\u` followed by the four hex digits of any character below U+10000 that is not a surrogate becomes that character, and the rest of the text is rewritten after it |
| Escapes.UnicodeEscapesWithoutU | tech_support/main.py:193 | text without `u` has no `\uXXXX` to rewrite |
| Escapes.NoBackslashAsWritten | tech_support/main.py:189-202 | the contract of `DecodeAsWritten`, the model of `_decode_backslash_escapes`, is this lemma together with `AsWrittenDecodesEscape`, `AsWrittenTab`, `AsWrittenCrLf` and `AsWrittenBackslashPair`; this one states that text without a backslash comes back unchanged |
| Escapes.EscapeBackslashN | tech_support/main.py:195-201 | backslash-n escapes to `\\n` |
| Escapes.AsWrittenDecodesEscapedBackslashN | tech_support/main.py:195-201 | as written, `\\n` decodes to backslash + line feed |
| Escapes.AsWrittenBreaksEscapedBackslash | tech_support/main.py:195-201 | the escaped text of backslash-n decodes, as written, to backslash + line feed, not to backslash-n |
| Escapes.Decode | tech_support/main.py:189-202 | the single-pass decoder leaves text without a backslash unchanged |
| Escapes.DecodeEscape | tech_support/main.py:189-202 | the single-pass decoder undoes escaping on every text without a CR LF pair |
| Escapes.DecodeKeepsEscapedBackslash | tech_support/main.py:189-202 | the single-pass decoder gives backslash-n back from its escape |
| Escapes.AsWrittenDecodesEscape | tech_support/main.py:189-202 | on text without a backslash or a CR LF pair, the rewrites as written undo the escaping |
| Escapes.AsWrittenTab | tech_support/main.py:189-202 | `\t` between two texts without a backslash becomes four spaces, and nothing else changes |
| Escapes.AsWrittenCrLf | tech_support/main.py:189-202 | `\r\n` between two texts without a backslash becomes one line feed, and nothing else changes |
| Escapes.AsWrittenBackslashPair | tech_support/main.py:189-202 | `\\` between two texts without a backslash becomes one backslash, the last rewrite, when the text after it does not start with `n`, `r`, `t`, `"` or `u`; nothing else changes |
| Escapes.NewlineEscapeExample | tech_support/main.py:196 | `a\nb` decodes to `a`, line feed, `b` under both decoders |
| SupportChat.BuildMessages | tech_support/main.py:258-264 | the system prompt first, every history turn in order with its role and content, the user message last; length `2 + len(history)` |
| SupportChat.TokenLoop | tech_support/main.py:287-312 | at most `RETRIES + 1` requests; a granted token is non-empty |
| SupportChat.FetchSpec | tech_support/main.py:273-312 | missing credentials make no request; otherwise at most `RETRIES + 1` requests |
| SupportChat.GigaChatClient.constructor | tech_support/main.py:238-239 | no token and expiry 0 |
| SupportChat.GigaChatClient.FetchToken | tech_support/main.py:266-312 | a token with more than 60 s left is returned with no request; otherwise the loop's grant is cached with expiry `now + ttl`, and a refusal leaves the cache |
| SupportChat.AfterFetch | tech_support/main.py:298-300 | a grant is cached with expiry `now + ttl`; a refusal leaves the cache |
| SupportChat.GigaChatClient.CallGigaChat | tech_support/main.py:314-358 | the answer is `ChatSpec`, at most `RETRIES + 1` chat requests are made, and the token cache afterwards is `ChatSpecCache`: emptied and refilled on every 401/403, untouched otherwise |
| SupportChat.TokenGrantedFrom200 | tech_support/main.py:292-300 | a granted token comes from a 200 answer carrying it, after only retryable failures |
| SupportChat.TokenTtl | tech_support/main.py:299 | the lifetime is `expires_in`, or 900 when it is 0 or absent |
| SupportChat.TokenRetriesExhausted | tech_support/main.py:288-312 | only retryable failures use every attempt and end in 502 |
| SupportChat.TokenRejectedAtOnce | tech_support/main.py:305-306 | a non-retryable non-200 status ends the token loop after one request with that status |
| SupportChat.ChatOkFrom200 | tech_support/main.py:346-347 | a chat answer only ever comes from a 200 within the attempts |
| SupportChat.AuthRejectionsExhaust | tech_support/main.py:339-345 | 401/403 answers use up attempts even when each refresh succeeds, ending in 502 |
| SupportChat.ChatRetriesExhausted | tech_support/main.py:334-358 | only retryable chat failures end in 502 |
| SupportChat.ChatOkAt200 | tech_support/main.py:334-347 | after only retryable failures, a 200 within the attempts is the answer |
| SupportChat.ChatRejectedAtOnce | tech_support/main.py:346-352 | a non-retryable status other than 200, 401 and 403 ends the chat loop at once with that status |
| SupportChat.ChatCacheKeptWithoutRejection | tech_support/main.py:339-345 | without a 401 or 403 answer the token cache is left as it is |
| SupportChat.ChatCacheFromGrant | tech_support/main.py:339-345 | after the chat loop the cache is the old one, empty, or a non-empty token from a 200 token answer with expiry `now + ttl` |
| ToEnv.Quote | tech_support/to_env.py:29-34 | `None` counts as `""`; a trimmed value without a special character is returned as is, otherwise wrapped in double quotes |
| ToEnv.UnescapeQuotes | tech_support/to_env.py:33 | replacing `\"` by `"` undoes the quote escaping |
| ToEnv.DotenvDecodeEscapeQuotes | tech_support/to_env.py:33 | python-dotenv's escape decoding undoes the quote escaping on text without a backslash |
| ToEnv.QuoteRoundTrip | tech_support/to_env.py:29-34 | python-dotenv reads a written value without a backslash back as the trimmed value |
| ToEnv.QuoteMisreadsEscape | tech_support/to_env.py:33 | as written, a quoted value holding a backslash and an escape letter is read back by python-dotenv with one other character in their place |
| ToEnv.QuoteForDotenvRoundTrip | tech_support/to_env.py:29-34 | escaping backslashes as well, python-dotenv reads every written value back as the trimmed value |
| ToEnv.ValueFor | tech_support/to_env.py:40-44 | a non-empty setting or default is written unchanged |
| ToEnv.EnvLinesFor | tech_support/to_env.py:38-46 | the loop builds the lines for `keys` in order; the text joins them with line feeds and ends with one |
| ToEnv.LinesAt | tech_support/to_env.py:38-46 | line `i` is `KEY=quote(value)` for key `i`, the value falling back to the default and then to the placeholder |
| ToEnv.EnvFile | tech_support/to_env.py:36-46 | the lines for the ten keys of `ENV_KEYS`, in order |
| ToEnv.QuoteKeepsPlain | tech_support/to_env.py:32-34 | a trimmed value with no special character is written as it is |
| ToEnv.CredentialPlaceholder | tech_support/to_env.py:41-45 | an unset or empty id or secret is written as `<PUT_KEY_HERE>` |
| ToEnv.DefaultLine | tech_support/to_env.py:40-45 | an unset key with a plain default is written from the default |
| ToEnv.RetriesDefault | tech_support/to_env.py:39-45 | an unset retry count is written `RETRIES=2` |
| VkOAuth.UrlSafeB64Encode | api/core/vk_oauth.py:80 | four characters per started group of three bytes |
| VkOAuth.EncodeShape | api/core/vk_oauth.py:80 | the encoding is alphabet characters followed by exactly the padding count of `=` |
| VkOAuth.RStrip | api/core/vk_oauth.py:80 | `rstrip` removes exactly the trailing copies of the character |
| VkOAuth.StateShape | api/core/vk_oauth.py:77-82 | a state is URL-safe characters only, has no `=`, and is non-empty for non-empty input |
| VkOAuth.StateLength | api/core/vk_oauth.py:78-80 | a 32-character token gives a 43-character state |
| VkOAuth.Consume | api/core/vk_oauth.py:84-90 | true iff the state is non-empty and issued; the set only shrinks |
| VkOAuth.SingleUse | api/core/vk_oauth.py:87-89 | an issued state validates once, and a second validation fails |
| VkOAuth.ConsumeKeepsOthers | api/core/vk_oauth.py:88 | consuming one state keeps every other issued state |
| VkOAuth.FailedValidationKeepsSet | api/core/vk_oauth.py:85-90 | a failed validation leaves the set unchanged |
| VkOAuth.VKOAuthService.constructor | api/core/vk_oauth.py:10-18 | the configuration is kept and no state is issued |
| VkOAuth.VKOAuthService.GenerateState | api/core/vk_oauth.py:77-82 | returns the padding-free encoding and adds it to the issued set |
| VkOAuth.VKOAuthService.ValidateAndConsumeState | api/core/vk_oauth.py:84-90 | answer and new set are those of `Consume` |
| VkOAuth.VKOAuthService.GetAuthorizationUrl | api/core/vk_oauth.py:92-104 | the returned state is issued, and the URL ends with `&state=` and that state |
| VkOAuth.AuthorizeUrlEndsWithState | api/core/vk_oauth.py:95-103 | the URL starts with the authorize endpoint and ends with the state parameter |
| VkOAuth.IssuedStateValidatesOnce | api/core/vk_oauth.py:77-90 | the state handed out validates exactly once |
| FileUpload.Extension | api/core/file_upload.py:50 | a suffix of the name that holds no `.` |
| FileUpload.ExtensionAfterLastDot | api/core/file_upload.py:50 | a name without `.` is its own extension; otherwise the extension is what follows the last `.` |
| FileUpload.ExtensionAfterDot | api/core/file_upload.py:50 | after a `.`, a text without `.` is the extension, whatever comes before |
| FileUpload.UploadCheck | api/core/file_upload.py:32-47 | 400 iff the type is not allowed or the size exceeds 10 MiB; exactly 10 MiB passes |
| FileUpload.FileUploadService.constructor | api/core/file_upload.py:9-15 | the upload directory and the stored files |
| FileUpload.FileUploadService.UploadImage | api/core/file_upload.py:29-62 | refused uploads store nothing; otherwise the file is stored at its path and its `/uploads/` URL returned |
| FileUpload.FileUploadService.DeleteFile | api/core/file_upload.py:64-74 | true iff the URL starts with `/uploads/` and names a stored file, which is then removed; false changes nothing |
| FileUpload.DeleteFindsStoredFile | api/core/file_upload.py:52-68 | the URL of a stored file leads back to its path |
| FileUpload.StoredNameShape | api/core/file_upload.py:51 | the stored name starts with the category and `_`, and ends with `.` and the extension; for a relative category it does not start with `/` |
| FileUpload.UploadThenDelete | api/core/file_upload.py:50-68 | an upload's URL leads `delete_file` to the stored file |
| FileUpload.DeleteAsWrittenDropsInnerPrefix | api/core/file_upload.py:67-68 | for names `a`, `b` without `/`, the URL `/uploads/a/uploads/b` passes the prefix test and, as written, maps to the upload directory joined with `ab`, where the leading prefix alone gives `a/uploads/b` |
| FileUpload.ExtensionExample | api/core/file_upload.py:50 | the extension of `photo.final.png` is `png` |
| CommentSchema.NormalizeParentId | api/core/schemas/comment.py:14-19 | a value equal to 0, `"0"`, `""` or `None` (including `False` and `0.0`) becomes `None`; anything else is kept |
| CommentSchema.NormalizeParentIdIdempotent | api/core/schemas/comment.py:14-19 | normalising twice is normalising once |
| CommentSchema.FlattenReply | api/core/schemas/comment.py:43-57 | a dict is copied with `replies = []`; an object with all seven attributes gives them with `replies = []`; anything else fails |
| CommentSchema.FlattenAll | api/core/schemas/comment.py:66-83 | a successful flattening has one entry per reply |
| CommentSchema.FlattenAllEntries | api/core/schemas/comment.py:66-83 | flattening succeeds iff every reply can be read, and entry `i` is reply `i` flattened |
| CommentSchema.FlattenLoop | api/core/schemas/comment.py:66-83 | the loop succeeds iff every reply can be read, and then yields the flattened replies as dicts |
| CommentSchema.CoerceRepliesBefore | api/core/schemas/comment.py:60-86 | `None` gives `[]`; otherwise the flattened entries, or the input itself when iterating or reading fails |
| CommentSchema.SerializeReplies | api/core/schemas/comment.py:36-58 | `None` or `[]` gives `[]`; otherwise every reply flattened in order, or a failure when one cannot be read |
| CommentSchema.CoerceListShape | api/core/schemas/comment.py:66-86 | one entry per reply, in order, each a dict with `replies == []`; dict replies keep every other key and value |
| CommentSchema.CoerceKeepsUnreadable | api/core/schemas/comment.py:84-85 | a list with an unreadable reply is returned unchanged |
| CommentSchema.CoerceIdempotent | api/core/schemas/comment.py:60-86 | coercing an already coerced list changes nothing: nesting stays one level |

## Left out

- Floating point: scores, thresholds and popularities are exact reals. `float32` rounding,
  the `1e-8` norm substitute as a value, and the sigmoid are not modelled.
- Ranker.CosineScores: the cosine is kept as the exact pair (dot, product of squared norms)
  and compared through a monotone key, because a square root is not available.
- TokenNormalizer.Nfc: NFC is modelled only for the compositions of `е`/`Е` with a diaeresis
  and `и`/`И` with a breve. Other compositions and decompositions are not modelled.
- TokenNormalizer.NormalizeTextIdempotent: holds only under the modelled compositions.
  Full NFC composes `е` + U+0306 to `ӗ` and `е` + U+0300 to `ѐ`. So `ё` + U+0306 becomes
  `е` + U+0306 after the fold, and normalising that again gives `ӗ`. The source is not
  idempotent on these inputs even without a combining diaeresis.
- TokenNormalizer.NormalizeText: "no longer than the input" holds only under the modelled
  compositions. Full NFC can lengthen text: U+0958 decomposes into two characters.
- Concurrency: requests are modelled one at a time. Interleaving at `await` points and
  thread-pool races are not captured. This affects Catalog.CatalogCache.Get,
  Catalog.ReadTwiceWithinTtl, Recommender.Recommend, Classifier.ArtifactStore.PredictLabels,
  Classifier.ArtifactStore.Predict, SupportChat.GigaChatClient.FetchToken and
  SupportChat.GigaChatClient.CallGigaChat. `_get_communities` and `_get_posts` await the
  fetch between the staleness test and the cache write, so two overlapping requests can
  both fetch; the fetch-once property of `Catalog.ReadTwiceWithinTtl` is for sequential
  reads. `predict` is a plain `def` that FastAPI runs on a thread pool, so two calls can
  load the artifacts at once. The token globals can change at any `await` between the
  freshness test and the write.
- TokenNormalizer.LowerChar: lower-casing covers Latin, Latin-1 and basic Cyrillic
  capitals only. Other scripts are left unchanged.
- Classifier.SortByProb: `argsort` is not stable, so the model uses one stable order. Its
  contract claims only the probability order and the contents, not the order of ties.
- Network I/O (aiohttp, httpx), sklearn/joblib loading, `np.load`, JSON reading: their
  results are parameters.
- The backoff `asyncio.sleep(0.7 * 2 ** attempt)` and every timeout are not modelled.
- SupportChat.GigaChatClient.FetchToken: the clock is read once, so the expiry is
  `now + ttl` with the same `now` as the freshness test. A 200 answer with the wrong
  content type raises a client error, which is retried, so it is given as
  `TokenConnectionError`. Malformed JSON, JSON that is not an object, and a non-numeric
  `expires_in` raise errors that the loop does not catch. In the source these give a
  500; the model does not have them.
- SupportChat.GigaChatClient.CallGigaChat: a 200 answer with the wrong content type raises
  a client error, which is retried, so it is given as `ChatConnectionError`. A 200 answer
  with malformed JSON raises an error the loop does not catch, which gives a 500 in the
  source; the model does not have that case.
- Error details that print Python objects (`repr(last_err)`, the token JSON, `str(e)` of
  model failures) are reduced to fixed texts.
- Escapes.UnicodeEscapes: `\uXXXX` escapes naming a surrogate (D800-DFFF) are left
  unchanged, because a Dafny `char` cannot hold a surrogate.
  Escapes.UnicodeEscapeOfChar states the rewrite for the lower-case digits `Hex4Of`
  writes; the function reads upper-case digits the same way.
- `clean_html` (its regexes and `html.unescape`) and the SSL context setup are not modelled.
- numpy broadcasting of a probability array of the wrong length is modelled as a failure.
- Catalog.PageLimit, Catalog.CacheTtl, Classifier.DefaultThreshold and SupportChat.Retries
  are fixed at their defaults (100, 60 s, 0.5, 2); the environment variables
  `MP_API_PAGE_LIMIT`, `MP_API_CACHE_TTL`, `DEFAULT_THR` and `RETRIES` that override them
  are not modelled. With a page limit of 0 or less `_get_all` never ends, and with
  `RETRIES` below 0 both GigaChat loops send nothing and fail with 502; neither is modelled.
- Catalog.Popularity: catalog objects are taken to be JSON objects with an integer `id`
  (0 when absent) and numeric counts. Numeric strings accepted by `int()`/`float()`, a null
  `id` or a non-object item (each of which raises and gives a 500) are not modelled.
- ToEnv.DotenvValue: python-dotenv is modelled on one line's value text. Values spanning
  lines, single-quoted values, comments after a value and its regular-expression scan are
  not modelled.
- ToEnv.EnvLinesFor: writes values with `quote` as written; `QuoteForDotenv` is the
  corrected quoting (see Findings).
- FileUpload.FileUploadService.UploadImage: a `None` file name, filesystem errors,
  `makedirs` and the copy are not modelled. The file size is given rather than measured
  with `seek`/`tell`.
- FileUpload.FileUploadService.DeleteFile: uses the corrected path (see Findings).
- CommentSchema.CoerceRepliesBefore: iterating a non-empty dict is modelled through one of
  its keys (any key fails the same way). Objects are taken not to be iterable.
- The FastAPI routes, the database CRUD, the ORM models, JWT dependencies and the other
  pydantic schemas are not part of this model.
- Writing `.env` to disk and the missing-artifacts message's trailing instructions are not
  modelled.

## Findings

| source | as written | input that shows it | evidently intended | confidence | as-written member | corrected member |
|---|---|---|---|---|---|---|
| tech_support/main.py:195-201 | the escapes are replaced one after another over the whole text, with `\\` collapsed last | the text backslash followed by `n` is escaped to `\\n`, and that decodes as written to a backslash followed by a line feed | an escaped backslash stands for one backslash, so `\\n` decodes to backslash + `n` | low, not executed | Escapes.AsWrittenBreaksEscapedBackslash | Escapes.DecodeEscape |
| tech_support/to_env.py:33 | only `"` is escaped inside a quoted value, while python-dotenv also decodes `\\`, `\n`, `\t` and the other backslash escapes | `C:\new dir` is written `"C:\new dir"` and read back with a line feed in place of `\n` | backslashes are escaped too, so every value reads back unchanged | low, not executed | ToEnv.QuoteMisreadsEscape | ToEnv.QuoteForDotenvRoundTrip |
| api/core/file_upload.py:68 | `file_url.replace('/uploads/', '')` removes every occurrence of the prefix | `/uploads/a/uploads/b` maps to `{upload_dir}/ab` | only the leading `/uploads/` is removed, giving `{upload_dir}/a/uploads/b` | low, not executed | FileUpload.DeleteAsWrittenDropsInnerPrefix | FileUpload.DeleteFindsStoredFile |
