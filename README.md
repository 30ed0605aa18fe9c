# SuperApp core in Dafny

SuperApp is a career-tools application. It has two back ends. The Node/Express
one stores documents, chat sessions and third-party API keys in MongoDB and
protects its routes with JWT middleware. The Python/FastAPI one handles user
registration, login and token refresh, exposes request guards, and wraps
Google's Gemini model. This project models the logic at the centre of both
and proves properties about it:

- `document_model.dfy`: the `Document` schema's overlapping chunking loop,
  vector-id assignment and text search.
- `chat_model.dfy`: the `ChatSession` schema's messages, title derivation and
  context summary, plus the numeric bounds of the model preferences.
- `api_key_model.dfy`: the `ApiKey` schema's quota virtuals and methods, the
  masked key, the `iv:ciphertext` storage format and decryption.
- `auth_middleware.dfy`: `protect` (token extraction and user checks),
  `restrictTo`, and the sliding-window `rateLimit` as a class over its
  timestamp map.
- `security.dfy`: JWT claim construction, the masked key, and the Fernet and
  fallback API-key encryption.
- `user_store.dfy`: the user collection as a map from id to user, with its
  unique email and username indexes.
- `auth_endpoints.dfy`: `register_user`, `login` and `refresh_token` as
  decision functions plus a class whose methods update the user map.
- `deps.dfy`: the request guards of the Python API and the choice of the Gemini key.
- `gemini_format.dfy`, `gemini_service_py.dfy` and `gemini_service_js.dfy`: the
  two services' message-to-history conversion and "Variation N:" parsing. The
  regular expressions are scanned by hand for both dialects. Also the mock
  engagement prediction.
- `config.dfy`: the settings validators for CORS origins, the Sentry DSN and
  the emails flag.
- `common.dfy`: shared helpers. Options, results, JSON values, ASCII strip,
  split and join, filters.

Cryptography, JWT signing, password hashing, the clock and randomness are
parameters: abstract functions, a `now` instant, or the drawn values.

## Model

| member | source | states |
|---|---|---|
| DocumentModel.ChunksFromAt | SuperApp/src/shared/models/document.model.js:93-104 | chunk k of the loop starts at i + k·stride, ends at min(start + chunkSize, length), holds exactly text[start..end], and the loop stops at the first chunk that reaches the end |
| DocumentModel.ChunkAt | SuperApp/src/shared/models/document.model.js:93-101 | chunk k of `processIntoChunks` starts at k·(chunkSize − overlap) and its content is the slice between its recorded start and end |
| DocumentModel.ChunkLengths | SuperApp/src/shared/models/document.model.js:93-104 | every chunk is non-empty and at most chunkSize long; every chunk but the last is exactly chunkSize long |
| DocumentModel.ChunksCover | SuperApp/src/shared/models/document.model.js:93-104 | with 0 ≤ overlap < chunkSize the chunks start at 0 and the last one ends at the text's length; empty text gives no chunks |
| DocumentModel.ChunksOverlap | SuperApp/src/shared/models/document.model.js:93-94 | each chunk after the first starts `overlap` characters before the previous one ends |
| DocumentModel.DefaultChunking | SuperApp/src/shared/models/document.model.js:87-104 | with the default 1000 and 200, chunk k starts at 800·k, ends at min(800·k + 1000, length), holds that slice, and the chunks run from 0 to the end |
| DocumentModel.LoopNeverExits | SuperApp/src/shared/models/document.model.js:93-104 | when chunkSize − overlap ≤ 0 and the text is longer than chunkSize, no iteration reaches the end, so the loop does not stop |
| DocumentModel.Document.ProcessIntoChunks | SuperApp/src/shared/models/document.model.js:87-113 | the loop leaves exactly the chunking above in `chunks`, marks the document processed and leaves its content alone |
| DocumentModel.Document.UpdateVectorIds | SuperApp/src/shared/models/document.model.js:116-129 | a length mismatch is the error and changes nothing; otherwise chunk k gets vectorIds[k] and the provider, keeping its content and indices |
| DocumentModel.Document.SearchText | SuperApp/src/shared/models/document.model.js:132-136 | the result is the subsequence of exactly the chunks whose content matches, in order |
| ChatModel.FirstWithRole | SuperApp/src/shared/models/chat.model.js:79 | the index of the first message with the role, or none when no message has it |
| ChatModel.TitleFrom | SuperApp/src/shared/models/chat.model.js:81-85 | content of at most 30 characters is the title; longer content gives its first 30 characters followed by "..." |
| ChatModel.TitleChangesOnlyWhen | SuperApp/src/shared/models/chat.model.js:76-90 | the title changes only from "New Conversation" and only when a user message exists, and then it is cut from the first user message |
| ChatModel.TitleIdempotent | SuperApp/src/shared/models/chat.model.js:76-90 | deriving the title twice gives the same result as once |
| ChatModel.SummarizeShort | SuperApp/src/shared/models/chat.model.js:94-96 | at most maxMessages messages are returned unchanged |
| ChatModel.SummarizeShape | SuperApp/src/shared/models/chat.model.js:93-110 | with 1 ≤ maxMessages and more messages than that: the first system message if any, then the count summary, then exactly the last maxMessages messages |
| ChatModel.SummarizeZeroKeepsAll | SuperApp/src/shared/models/chat.model.js:100 | with maxMessages = 0, `slice(-0)` keeps every message behind the summary |
| ChatModel.DefaultSummary | SuperApp/src/shared/models/chat.model.js:93-110 | with the default of 10, a long conversation keeps exactly its last 10 messages, right behind the summary, with at most 12 in all |
| ChatModel.ChatSession.constructor | SuperApp/src/shared/models/chat.model.js:33-41 | a new session is titled "New Conversation" and has no messages |
| ChatModel.ChatSession.AddMessage | SuperApp/src/shared/models/chat.model.js:68-73 | appends exactly one message, keeps the earlier ones and the title, and the count grows by one |
| ChatModel.ChatSession.UpdateTitle | SuperApp/src/shared/models/chat.model.js:76-90 | the new title is the derived title; the messages are unchanged |
| ChatModel.ChatSession.SummarizeContext | SuperApp/src/shared/models/chat.model.js:93-110 | few enough messages are returned as they are; otherwise the result ends with exactly the last maxMessages messages, with at most two messages before them |
| ChatModel.BoundErrors | SuperApp/src/shared/models/chat.model.js:136-147 | a preferences document is valid iff maxTokens is in 1..8192 and contextWindow in 1..100, and each out-of-range field is named |
| ChatModel.DefaultPreferencesValid | SuperApp/src/shared/models/chat.model.js:136-147 | the defaults (1024 tokens, window 10) pass the bounds |
| ChatModel.ValidWindowSummarizes | SuperApp/src/shared/models/chat.model.js:93-110 | a valid context window keeps the last contextWindow messages when summarizing |
| ApiKeyModel.QuotaRemaining | SuperApp/src/shared/models/api-key.model.js:66-68 | never negative, and equal to limit − used unless that is negative |
| ApiKeyModel.QuotaPercentageUsed | SuperApp/src/shared/models/api-key.model.js:71-73 | capped at 100; 100 when the limit is not positive; used/limit·100 while within the limit |
| ApiKeyModel.MaskKey | SuperApp/src/shared/models/api-key.model.js:96-99 | the first five characters, "...", then the last four characters, even for short keys |
| ApiKeyModel.HexDigit | SuperApp/src/shared/models/api-key.model.js:111 | a digit 0-9 or a lower-case a-f that `HexValue` reads back as d |
| ApiKeyModel.Hex | SuperApp/src/shared/models/api-key.model.js:111 | two lower-case hex digits per byte |
| ApiKeyModel.HexRoundTrip | SuperApp/src/shared/models/api-key.model.js:111-128 | decoding the hex of a byte string gives the bytes back |
| ApiKeyModel.StoredKeySplits | SuperApp/src/shared/models/api-key.model.js:111-126 | splitting `iv:ciphertext` on ':' gives exactly the two hex parts |
| ApiKeyModel.EncryptionSecret | SuperApp/src/shared/models/api-key.model.js:104 | the environment secret when it is set and non-empty, else the built-in default |
| ApiKeyModel.GetDecryptedKey | SuperApp/src/shared/models/api-key.model.js:120-138 | a key comes back iff the stored form splits into at least two parts and the secret and decoded IV lengths suit the cipher; it is the decipherment of the two decoded parts; no ':' means no key |
| ApiKeyModel.StoreThenDecrypt | SuperApp/src/shared/models/api-key.model.js:91-138 | what the pre-save hook stores decrypts back to the key when the cipher pair is inverse |
| ApiKeyModel.DefaultSecretNeverDecrypts | SuperApp/src/shared/models/api-key.model.js:104-130 | the 29-character default secret is not a 32-byte AES-256 key, so without the environment secret nothing decrypts |
| ApiKeyModel.ApiKey.constructor | SuperApp/src/shared/models/api-key.model.js:27-47 | a new key document counts as modified and has nothing used |
| ApiKeyModel.ApiKey.IncrementUsage | SuperApp/src/shared/models/api-key.model.js:76-80 | usage grows by exactly the amount, uncapped |
| ApiKeyModel.ApiKey.ResetQuota | SuperApp/src/shared/models/api-key.model.js:83-88 | nothing used and the new reset date; the full limit remains |
| ApiKeyModel.ApiKey.PreSave | SuperApp/src/shared/models/api-key.model.js:91-117 | an unmodified key is left alone; otherwise the mask is set first, then the key becomes its stored form, or the save fails with the plaintext key kept when the cipher rejects the secret |
| AuthMiddleware.ExtractToken | SuperApp/src/api/middleware/auth.js:21-27 | with a header starting with "Bearer", its second space-separated field (space-free), else the token cookie exactly when it is non-empty |
| AuthMiddleware.HeaderPrecedence | SuperApp/src/api/middleware/auth.js:21-27 | a header starting with "Bearer" hides the cookie completely; any other header is ignored |
| AuthMiddleware.BearerHeaderToken | SuperApp/src/api/middleware/auth.js:21-22 | "Bearer " + a space-free token yields that token |
| AuthMiddleware.BareBearerIgnoresCookie | SuperApp/src/api/middleware/auth.js:21-35 | a bare "Bearer" header yields no token even when a cookie carries one |
| AuthMiddleware.Protect | SuperApp/src/api/middleware/auth.js:16-73 | every failure is a 401; success iff a token exists, verifies, names a stored user, and that user is active; the user passed on is the one stored under the token's id |
| AuthMiddleware.ProtectOrder | SuperApp/src/api/middleware/auth.js:37-68 | the checks come in order: invalid token, then missing user, then deactivated user, each with its own message |
| AuthMiddleware.RestrictTo | SuperApp/src/api/middleware/auth.js:80-92 | passes the user on iff its role is listed, else 403 |
| AuthMiddleware.Recent | SuperApp/src/api/middleware/auth.js:115 | the timestamps inside the window, in order, and all of them |
| AuthMiddleware.RateLimiter.constructor | SuperApp/src/api/middleware/auth.js:100-102 | the limits as given and no timestamps |
| AuthMiddleware.RateLimiter.Handle | SuperApp/src/api/middleware/auth.js:104-130 | accepted iff fewer than maxRequests recent timestamps; acceptance stores the recent ones plus now under the key alone; refusal (429) changes nothing; no stored list ever exceeds maxRequests |
| AuthMiddleware.AcceptedListInWindow | SuperApp/src/api/middleware/auth.js:115-127 | every timestamp stored after an accepted request is inside the window |
| Security.Expiry | SuperApp/backend/app/core/security.py:41-49 | now + delta for a non-zero delta, now + the configured lifetime otherwise |
| Security.TokenPayload | SuperApp/backend/app/core/security.py:41-53 | the input claims with "exp" and "type" added or overridden and every other claim kept |
| Security.AccessTokenClaims | SuperApp/backend/app/core/security.py:30-62 | type "access", the expiry above with minutes as the default unit, other claims kept |
| Security.RefreshTokenClaims | SuperApp/backend/app/core/security.py:65-97 | type "refresh", the expiry above with days as the default unit, other claims kept |
| Security.ClaimsDifferOnlyInType | SuperApp/backend/app/core/security.py:30-97 | with the same explicit delta the two payloads differ in "type" alone |
| Security.CreateMaskedKey | SuperApp/backend/app/core/security.py:169-184 | 8 or more characters: first 3, "...", last 4; 3 to 7: "***" and the last 2; otherwise "***" |
| Security.EncryptApiKey | SuperApp/backend/app/core/security.py:127-142 | the Fernet token, or without Fernet "mock_encrypted_" and the last 8 characters |
| Security.DecryptApiKey | SuperApp/backend/app/core/security.py:145-166 | the Fernet result (None on failure), or without Fernet a value iff the input has the mock prefix, naming its last 8 characters |
| Security.FallbackRoundTrip | SuperApp/backend/app/core/security.py:137-160 | without Fernet a key of 8+ characters round-trips to "decrypted_key_ending_with_" and its last 8 characters |
| Security.FallbackShortKey | SuperApp/backend/app/core/security.py:137-160 | without Fernet a shorter key's result also carries the end of the mock prefix |
| Security.FernetRoundTrip | SuperApp/backend/app/core/security.py:127-166 | with an inverse Fernet pair the key survives encryption and decryption |
| UserStore.FindByUsername | SuperApp/backend/app/db/mongodb/models.py:35-50 | finds a user iff one has the username, and it is the stored one |
| UserStore.FindByEmail | SuperApp/backend/app/db/mongodb/models.py:35-50 | finds a user iff one has the email, and it is the stored one |
| UserStore.FindById | SuperApp/backend/app/api/deps.py:47-52 | finds a user iff the subject is a string that is a stored id |
| UserStore.InsertKeepsUnique | SuperApp/backend/app/db/mongodb/models.py:38-40 | adding a user with a fresh email and username keeps both indexes unique |
| UserStore.UpdateKeepsUnique | SuperApp/backend/app/db/mongodb/models.py:38-40 | rewriting a user without touching id, email or username keeps both indexes unique |
| AuthEndpoints.RegisterCheck | SuperApp/backend/app/api/endpoints/auth.py:43-97 | accepted iff the request is valid and neither the email nor the username is taken; validation, then email, then username decide the error |
| AuthEndpoints.LookupLogin | SuperApp/backend/app/api/endpoints/auth.py:144-146 | a username match wins; otherwise the email match; found iff either exists |
| AuthEndpoints.LoginCheck | SuperApp/backend/app/api/endpoints/auth.py:144-168 | an unknown identifier or wrong password gives the same 401; an inactive user gives 400 only after the password checks; success is the found user |
| AuthEndpoints.IssuedClaimsCarrySubject | SuperApp/backend/app/api/endpoints/auth.py:170-182 | both issued tokens carry sub = the user's id, with types access and refresh |
| AuthEndpoints.RefreshCheck | SuperApp/backend/app/api/endpoints/auth.py:224-286 | an unverifiable token and a non-refresh type are 401; success iff the subject is a stored active user, and the result is the user stored under the subject |
| AuthEndpoints.RefreshOrder | SuperApp/backend/app/api/endpoints/auth.py:233-258 | after the type check: missing subject, then missing user (401), then inactive user (400) |
| AuthEndpoints.AccessTokenCannotRefresh | SuperApp/backend/app/api/endpoints/auth.py:233-240 | an access token's payload is always refused as the wrong type |
| AuthEndpoints.IssuedRefreshTokenAccepted | SuperApp/backend/app/api/endpoints/auth.py:178-286 | the refresh token a login issues is accepted while its user is stored and active |
| AuthEndpoints.AuthService.constructor | SuperApp/backend/app/api/endpoints/auth.py:70-119 | the service starts over a unique user map |
| AuthEndpoints.AuthService.Register | SuperApp/backend/app/api/endpoints/auth.py:70-119 | fails exactly as the check says and then changes nothing; else stores exactly the new user under the new id and returns it without the hash; the indexes stay unique |
| AuthEndpoints.AuthService.Login | SuperApp/backend/app/api/endpoints/auth.py:128-192 | fails exactly as the check says and then changes nothing; else issues both tokens for the user and records the login time |
| AuthEndpoints.AuthService.Refresh | SuperApp/backend/app/api/endpoints/auth.py:207-286 | a fresh token pair exactly when the refresh check passes; the store is untouched |
| Deps.GetCurrentUser | SuperApp/backend/app/api/deps.py:22-55 | every failure is the one 401; success iff the token verified and its subject is stored |
| Deps.RefreshTokenAuthenticates | SuperApp/backend/app/api/deps.py:22-55 | the guard ignores "type", so a refresh token's payload authenticates like an access token's |
| Deps.GetCurrentActiveUser | SuperApp/backend/app/api/deps.py:58-73 | the user iff active, else 400; earlier failures pass through |
| Deps.GetCurrentAdminUser | SuperApp/backend/app/api/deps.py:76-94 | succeeds iff the user is active and a superuser; the active check comes first, then 403 |
| Deps.SelectGeminiKey | SuperApp/backend/app/api/deps.py:97-121 | the user's non-empty key, else the non-empty default, else 400; a chosen key is never empty |
| Deps.NewUserUsesDefaultKey | SuperApp/backend/app/api/deps.py:106-119 | under the intended field lookup, a user with default settings gets the configured key |
| Deps.SelectGeminiKeyAsWritten | SuperApp/backend/app/api/deps.py:110-119 | as written: any user with a settings object gets a 500, and a user without settings gets the intended result |
| Deps.NewUserKeyLookupFails | SuperApp/backend/app/api/deps.py:110 | as written, a user with default settings always gets a 500, which differs from the intended result whenever a default key is configured |
| Deps.OwnKeyNeverUsedAsWritten | SuperApp/backend/app/api/deps.py:110-113 | wherever the intended lookup would use the user's own key, the code as written fails instead |
| GeminiFormat.GeminiRole | SuperApp/backend/app/services/ai/gemini_service.py:151 | "assistant" becomes "model"; every other role is kept |
| GeminiFormat.HistoryOf | SuperApp/src/services/ai/gemini.service.js:133-136 | one entry per message, in order, with its text and converted role |
| GeminiFormat.HistoryOfAppend | SuperApp/src/services/ai/gemini.service.js:133-136 | the history of a concatenation is the concatenation of the histories |
| GeminiFormat.SystemRoleOnly | SuperApp/backend/app/services/ai/gemini_service.py:151-154 | a converted role is "system" iff the original was |
| GeminiFormat.NextLabel | SuperApp/backend/app/services/ai/gemini_service.py:246 | the first position from i on where a "Variation N:" label starts, or the end of the text |
| GeminiFormat.ScanInPrefix | SuperApp/backend/app/services/ai/gemini_service.py:246 | a label read inside a prefix is read the same way in the whole text |
| GeminiFormat.LabelInSlice | SuperApp/backend/app/services/ai/gemini_service.py:246 | a label in a slice is a label at the same place in the text |
| GeminiFormat.MatchesHaveNoLabel | SuperApp/backend/app/services/ai/gemini_service.py:246-247 | a captured section contains no label, because the lazy capture stops at the next one |
| GeminiFormat.ParsedHaveNoLabel | SuperApp/src/services/ai/gemini.service.js:197-206 | a kept variation is stripped, non-empty and contains no label |
| GeminiFormat.NoLabelNoMatches | SuperApp/src/services/ai/gemini.service.js:197-200 | text without a label has no matches |
| GeminiFormat.MatchesSkipPrefix | SuperApp/backend/app/services/ai/gemini_service.py:246-247 | text before the first label does not affect the matches |
| GeminiFormat.JsLabelIsPythonLabel | SuperApp/src/services/ai/gemini.service.js:197 | every JavaScript label is a Python label of the same length |
| GeminiFormat.KeepStrippedAppend | SuperApp/backend/app/services/ai/gemini_service.py:249-256 | keeping stripped non-empty contents distributes over concatenation |
| GeminiServicePy.FirstSystem | SuperApp/backend/app/services/ai/gemini_service.py:154-157 | the index of the first system message, or the length when there is none |
| GeminiServicePy.ConvertMessages | SuperApp/backend/app/services/ai/gemini_service.py:142-157 | the loop's history is every message from the first system message on, and its latest message is the one just before |
| GeminiServicePy.ConversionSplit | SuperApp/backend/app/services/ai/gemini_service.py:154-157 | no message before the first system message reaches the history, every later one does, in order |
| GeminiServicePy.SystemFirstSendsEmptyPrompt | SuperApp/backend/app/services/ai/gemini_service.py:154-175 | a conversation opening with a system message puts everything in the history and sends "" |
| GeminiServicePy.NoSystemSendsLastMessage | SuperApp/backend/app/services/ai/gemini_service.py:154-168 | without a system message the history is empty and only the last message is sent |
| GeminiServicePy.PyVariations | SuperApp/backend/app/services/ai/gemini_service.py:241-262 | the stripped non-empty sections, or the raw text alone when there are none; never empty |
| GeminiServicePy.ParseVariations | SuperApp/backend/app/services/ai/gemini_service.py:249-262 | the loop computes exactly those variations |
| GeminiServicePy.VariationsClean | SuperApp/backend/app/services/ai/gemini_service.py:249-262 | unless it is the fallback, each variation is stripped, non-empty and free of labels |
| GeminiServicePy.PredictEngagement | SuperApp/backend/app/services/ai/gemini_service.py:410-414 | each metric is one of low, medium and high |
| GeminiServicePy.EveryPredictionPossible | SuperApp/backend/app/services/ai/gemini_service.py:410-414 | every combination of three levels is produced by some draw |
| GeminiServiceJs.JsHistory | SuperApp/src/services/ai/gemini.service.js:133-136 | every message in order, same text; "model" iff the role was "assistant" or "model" |
| GeminiServiceJs.JsHistoryAppend | SuperApp/src/services/ai/gemini.service.js:133-136 | a new message appends exactly its entry to the history |
| GeminiServiceJs.ParseVariations | SuperApp/src/services/ai/gemini.service.js:193-209 | the `exec` loop computes exactly the stripped non-empty sections, with no fallback |
| GeminiServiceJs.VariationsClean | SuperApp/src/services/ai/gemini.service.js:200-206 | each variation is stripped, non-empty and free of labels |
| GeminiServiceJs.NoLabelNoVariations | SuperApp/src/services/ai/gemini.service.js:197-209 | text without a label gives no variations |
| GeminiServiceJs.LabelHasOneSpace | SuperApp/src/services/ai/gemini.service.js:197 | a JavaScript label is "Variation", exactly one space, then a digit |
| GeminiServiceJs.LevelOf | SuperApp/src/services/ai/gemini.service.js:274-276 | a draw in [0, 1) picks "low" below 1/3, "medium" from 1/3 to below 2/3, and "high" from 2/3 |
| GeminiServiceJs.PredictEngagement | SuperApp/src/services/ai/gemini.service.js:271-278 | each metric is one of low, medium and high |
| GeminiServiceJs.LevelReachable | SuperApp/src/services/ai/gemini.service.js:274-276 | the draw i/3 and the middle of each third pick the i-th level, so every level is possible |
| GeminiServiceJs.DoubleSpacedJs | SuperApp/src/services/ai/gemini.service.js:197 | "Variation  1:x" (two spaces) has no JavaScript label, so no variations |
| GeminiServiceJs.DoubleSpacedPythonMatches | SuperApp/backend/app/services/ai/gemini_service.py:246-247 | Python reads the same text as one section "x" |
| GeminiServiceJs.DialectsDiffer | SuperApp/backend/app/services/ai/gemini_service.py:246-262 | on that text the Python service gives ["x"] and the JavaScript one gives nothing |
| Config.AssembleCorsOrigins | SuperApp/backend/app/core/config.py:30-37 | a string not starting with "[" becomes its comma pieces, each stripped, one more than the commas; a list or "[" string passes; anything else is an error |
| Config.StripEach | SuperApp/backend/app/core/config.py:34 | each piece stripped, same count |
| Config.SplitJoin | SuperApp/backend/app/core/config.py:34 | splitting a join of separator-free pieces gives the pieces |
| Config.CorsRoundTrip | SuperApp/backend/app/core/config.py:30-37 | stripped comma-free origins survive joining with commas and parsing |
| Config.SentryDsn | SuperApp/backend/app/core/config.py:79-84 | None and "" become None; anything else is kept |
| Config.SentryDsnIdempotent | SuperApp/backend/app/core/config.py:79-84 | normalising twice is normalising once |
| Config.EmailsEnabled | SuperApp/backend/app/core/config.py:67-74 | true iff SMTP host, port and sender are all truthy |
| Config.EmailsEnabledIgnoresValue | SuperApp/backend/app/core/config.py:67-74 | the supplied value never affects the flag |
| Common.Strip | SuperApp/backend/app/core/config.py:34 | the slice of the text between its leading and trailing whitespace; everything cut off is whitespace and the result has no outer whitespace |
| Common.Split | SuperApp/src/shared/models/api-key.model.js:126 | one more piece than separators, and no piece contains the separator |
| Common.JoinSplit | SuperApp/src/shared/models/api-key.model.js:126 | joining the pieces with the separator gives the text back |
| Common.SplitAround | SuperApp/src/shared/models/api-key.model.js:126 | a separator-free prefix followed by a separator splits off as the first piece |

## Left out

- Cryptography: AES-256-CTR, Fernet, JWT signing and verification, and bcrypt are abstract functions or parameters. The model covers what the code around them does.
- Network and database I/O are not modelled: model calls, retries, `save()` and the routes. The MongoDB collections are values or class fields.
- `Date.now()`, `datetime.utcnow()`, `crypto.randomBytes`, `Math.random` and `random.choice` become parameters. Timestamps are integers.
- `updatedAt` and `createdAt` stamping is not modelled, because it only records the clock.
- ApiKeyModel.ApiKey.ResetQuota: the next reset date is a parameter; the month arithmetic of `setMonth` is not modelled.
- ApiKeyModel.QuotaPercentageUsed: exact reals stand in for JavaScript floating point.
- The model-preferences temperature bound (a float) is not modelled.
- The Python generation temperature and the other float generation settings are not modelled.
- DocumentModel.Document.SearchText: the case-insensitive `RegExp(query, 'i')` test is an abstract predicate on chunk content.
- DocumentModel.Document.ProcessIntoChunks: requires chunkSize > 0. With chunkSize ≤ 0 the source slices with non-positive ends, which JavaScript counts from the end of the text; that is not modelled. For chunkSize > 0 the loop does not end exactly when the stride is not positive and the text is longer than chunkSize, which LoopNeverExits states.
- DocumentModel.Document.ChunkCount has no contract of its own: it is the length of `chunks`.
- ChatModel.ChatSession.MessageCount has no contract of its own: it is the length of `messages`.
- Common.Strip: ASCII whitespace only, so this is weaker than Python's Unicode `strip()` and JavaScript's `trim()`.
- Regex classes `\s` and `\d` are read as ASCII whitespace and ASCII digits. `$` is read as the end of the text.
- GeminiServicePy.PyVariations: each variation is modelled as its content. The engagement prediction attached to it is modelled separately.
- GeminiServiceJs.ParseVariations: each variation is modelled as its content. The engagement prediction attached to it is modelled separately.
- Deps.SelectGeminiKey: models the intended field lookup at deps.py:110. The code as written fails for every user with settings; see "## Findings".
- AuthEndpoints.RegisterCheck: request validation (EmailStr, length limits) is one predicate with an abstract `isEmail`. Its failure is a single 422, and the framework's error details are not modelled.
- Pydantic settings behaviour is not modelled: which validators run, and in what order `values` is filled. The validators are functions of their inputs.
- Concurrency is not modelled. Two registrations racing past the uniqueness checks cannot happen in the sequential model.
- AuthEndpoints.AuthService.Register: the fresh id is a parameter. An id that is already stored is overwritten, as in the source.
- ApiKeyModel.CipherKeyOk: the secret's length is counted in characters, which matches bytes only for ASCII secrets.
- ApiKeyModel.ApiKey.PreSave: Mongoose schema validation before the hook is not modelled.
- AuthMiddleware.RateLimiter.Handle: the unused `requestCounts` map is not modelled.
- A user id that equals some IP address shares that IP's window, as in the source, because the key is just the string.
- The stored key's `select: false` projection is not modelled. Query projection is database behaviour.
- Security.CreateAccessToken: carries no contract of its own. It signs the claims that AccessTokenClaims specifies.
- Security.CreateRefreshToken: carries no contract of its own. It signs the claims that RefreshTokenClaims specifies.
- Server start-up, route wiring, database connection, LinkedIn, resume and job-prep routes are outside this model.
- JavaScript string lengths, `substring` and `slice` count UTF-16 code units, while the model's strings count Unicode code points. The two agree only for text inside the Basic Multilingual Plane. So TitleFrom, MaskKey and the chunk offsets differ from the source on text with characters such as emoji, and the source can split a surrogate pair where the model cannot.
- AuthMiddleware.Protect: a token whose `id` is not a valid ObjectId makes `findById` throw, which the source reports as "Token is invalid or expired". The model reports every id that names no stored user as "User no longer exists". Both are 401.
- Logging is not modelled: `console.error` in `getDecryptedKey` and the Python loggers.

## Findings

| source | as written | input that shows it | evidently intended | confidence | as-written member | corrected member |
|---|---|---|---|---|---|---|
| SuperApp/backend/app/api/deps.py:110 | `current_user.settings.get("gemini_api_key")` calls `get` on a pydantic `UserSettings` model, which has no such method, so it raises AttributeError and FastAPI answers 500 | a newly registered user, whose settings default to `UserSettings()` (models.py:48); Deps.NewUserKeyLookupFails and Deps.OwnKeyNeverUsedAsWritten state it | read the `gemini_api_key` field, then fall back to the configured key | high, not executed | Deps.SelectGeminiKeyAsWritten | Deps.SelectGeminiKey |
