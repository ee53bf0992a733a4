# Conversation cache and fixed-window rate limits of a direct-messaging API

This Dafny project models the key-value layer of a small direct-messaging
HTTP service, and proves properties of that model. The layer has two parts.

- **A conversation cache.** For every unordered pair of users the key
  `conv:<low id>:<high id>` holds a newest-first list of at most 50 message
  snapshots, written as one JSON document with a 300-second expiry. A send
  pushes onto it. A history request reads it, and refills it from the first
  page of the message store.
- **A fixed-window rate limiter, written out twice.** Login attempts are
  counted per client address (`rl:login:<ip>`, at most 5 per window). Sends
  are counted per user (`rl:send:<id>`, at most 30 per window). The counter is
  created as `"1"` with a 60-second expiry. It is refused once it reaches the
  ceiling, and otherwise increased with `incr`, which keeps the expiry.

The store is modelled the way the test suite's in-memory `FakeRedis` is
written: one map from string keys to stored strings, with `get`, `set` and
`incr`. A stored string is either plain text (`Text`, which is what the
counters are) or a JSON document (`Json`). A JSON document either decodes to
a list of messages (`Valid`) or does not decode (`Malformed`). Counters go
through a model of Python's `str(n)` and `int(s)`, and the round trip between
them is proved. The expiry each write asks for is kept in a ghost map
(`FakeRedis.ttl`). The fake ignores it; `FakeRedis.Expire` stands for the
moment a real store drops an expired key.

The message store is abstract: for each unordered pair, the conversation
newest first. History is a LIMIT/OFFSET window of it, and the count is its
length. The main system property is `Coherence.Coherent`: every cached list
is a decodable prefix of the stored conversation. Send, history, login and
expiry all preserve it. From it follows what the cache-versus-store choice in
the history endpoint promises. A page served from the cache is always a
prefix of the page the store would give, so it holds the newest messages in
order and never a stale or foreign one. It can be shorter than that page,
though: for example, after the cache expired and a single new message was
pushed, or after a first page with a smaller `limit` refilled it.

In these places the model follows the code:
- A stored string that decodes to a JSON integer, such as a counter, is not
  treated as a miss. Slicing it raises `TypeError`, and inserting into it
  raises `AttributeError`. Other plain strings are a miss in the model. The
  lines for `CachedWindow` and `PushBase` under "## Left out" say where
  the code differs.
- The limiter creates the counter with a plain `set` and an expiry, not with
  a set-if-absent.
- The ceilings 5 and 30 are literals in the routers. The configuration
  settings for them are never read.

## Model

| member | source | states |
|---|---|---|
| `Decimal.NatToString` | tests/conftest.py:87-90 | `str(n)` of a natural number is a non-empty string of ASCII digits with no leading zero |
| `Decimal.IntToString` | tests/conftest.py:87-90 | `str(n)` of any integer is non-empty and made only of digits and a minus sign, so it never contains the `:` separator |
| `Decimal.ParseInt` | app/routers/auth.py:51 | `int(s)` succeeds exactly on an optional sign followed by at least one digit; otherwise it raises ValueError (None) |
| `Decimal.NatToStringValue` | tests/conftest.py:87-90 | the digits `str(n)` writes denote n |
| `Decimal.IntRoundTrip` | tests/conftest.py:87-90 | `int(str(n)) == n` for every integer, so a counter written by `incr` reads back as the same number |
| `Decimal.IntToStringInjective` | app/cache.py:15 | different numbers print differently |
| `Decimal.JsonIntegerNumerals` | app/cache.py:26 | `json.loads` reads every `str(n)` as an integer, so a counter under a conversation key is never a miss; every JSON integer is also a numeral `int` accepts |
| `KeyValue.Lookup` | tests/conftest.py:81-82 | `get` finds a value exactly when the key is in the dictionary, and returns the stored value |
| `KeyValue.Incremented` | tests/conftest.py:87-90 | `incr` on a missing key returns 1; on a numeral it returns that number plus one; on anything else it raises ValueError |
| `KeyValue.IncrementReadsBack` | tests/conftest.py:87-90 | after `incr` the key reads back, through `int`, as the number returned (1 for a missing key), and every other key is unchanged |
| `KeyValue.FakeRedis.constructor` | tests/conftest.py:78-79 | a new fake holds no keys and no expiries |
| `KeyValue.FakeRedis.Get` | tests/conftest.py:81-82 | returns the last value `set` or `incr` stored under the key, or None |
| `KeyValue.FakeRedis.Set` | tests/conftest.py:84-85 | overwrites the key unconditionally, other keys untouched; what is stored does not depend on `ex`, which is only recorded as the requested expiry |
| `KeyValue.FakeRedis.Incr` | tests/conftest.py:87-90 | stores the new number's decimal string under the key and returns it; raises ValueError and changes nothing on a non-numeral; keeps every expiry |
| `KeyValue.FakeRedis.Expire` | app/cache.py:49 | an expired key disappears with its expiry, nothing else changes |
| `ConversationCache.PairOf` | app/cache.py:14 | `sorted((a, b))` is ascending and holds the same two ids |
| `ConversationCache.ConversationKey` | app/cache.py:13-15 | every conversation key starts with `conv:` |
| `ConversationCache.KeyOfPairInjective` | app/cache.py:15 | `conv:<a>:<b>` determines both numbers |
| `ConversationCache.ConversationKeyIdentifiesPair` | app/cache.py:13-15 | `key(a,b) == key(b,a)`, and two pairs share a key exactly when they are the same unordered pair of users |
| `ConversationCache.Slice` | app/cache.py:30 | `items[offset:offset+limit]` has length min(limit, len - offset) (zero past the end), and element i is `items[offset+i]` |
| `ConversationCache.Truncated` | app/cache.py:57 | `messages[:50]` keeps the first min(len, 50) elements, in order |
| `ConversationCache.Pushed` | app/cache.py:46-48 | after insert-at-head and the cut, element 0 is the new message, elements 1.. are the old list in order, and the length is min(old + 1, 50) |
| `ConversationCache.CachedWindow` | app/cache.py:22-31 | an absent key, or a string that does not decode, gives a miss (None); a decoded list gives exactly the window `items[offset:offset+limit]`, clamped as Python clamps slices; it raises TypeError exactly for a string that decodes to a JSON integer |
| `ConversationCache.PushBase` | app/cache.py:38-44 | a push starts from the empty list for an absent key, an empty string or a string that does not decode (the `except` branch), and from the decoded list otherwise; it raises AttributeError exactly for a string that decodes to a JSON integer |
| `ConversationCache.PushedStore` | app/cache.py:37-49 | a push writes only the pair's key, holding the pushed list, and raises exactly when its starting point does |
| `ConversationCache.ReplacedStore` | app/cache.py:55-58 | an overwrite stores exactly the first 50 of the given list under the pair's key, discards prior contents, and leaves every other key alone |
| `ConversationCache.GetConversationCache` | app/cache.py:18-31 | the read returns the cached window of what the store holds under the pair's key |
| `ConversationCache.PushConversationCache` | app/cache.py:34-49 | the read-modify-write leaves the store as `PushedStore` says, with a 300-second expiry on the pair's key; when it raises, nothing changes |
| `ConversationCache.SetConversationCache` | app/cache.py:52-58 | the overwrite leaves the store as `ReplacedStore` says, with a 300-second expiry on the pair's key |
| `ConversationCache.PushAllNewestFirst` | app/cache.py:46-48 | pushing a run of messages onto a list of at most 50 gives the run reversed in front of the old list, cut to 50 |
| `ConversationCache.PushesFromEmpty` | app/cache.py:46-48 | k pushes onto an absent list leave min(k, 50) messages, the most recent first; for k <= 50 that is all of them, and past 50 the oldest are evicted |
| `RateLimit.Attempt` | app/routers/auth.py:47-54 | absent counter: allowed, stored as "1". Counter >= ceiling: rejected, store unchanged. Unreadable counter: ValueError, unchanged. Otherwise allowed, the counter reads one more, and no other key changes |
| `RateLimit.CheckAndIncrement` | app/routers/messages.py:32-39 | the inline limiter does what `Attempt` says; it sets a 60-second expiry only when it creates the counter and leaves expiries alone otherwise |
| `RateLimit.AttemptStep` | app/routers/auth.py:47-54 | below the ceiling an attempt is allowed and the counter goes up by one; at the ceiling it is rejected and the counter stays |
| `RateLimit.AttemptsFromCount` | app/routers/auth.py:47-54 | from counter c <= ceiling, attempt i of a run is allowed iff c + i < ceiling, and the counter ends at min(c + n, ceiling), so it never passes the ceiling |
| `RateLimit.ExhaustedUntilExpiry` | app/routers/auth.py:51-53 | an exhausted window rejects and stays unchanged; once it expires the next attempt is allowed and opens a window at 1 |
| `MessageStore.Appended` | app/repositories.py:36-42 | a stored message becomes the newest of its conversation, in both directions, and no other conversation changes |
| `MessageStore.MessageDb.constructor` | app/models.py:44 | an empty message store hands out id 1 first |
| `MessageStore.MessageDb.Create` | app/repositories.py:36-42 | insertion returns the message with the next id and prepends it to its conversation |
| `MessageStore.MessageDb.History` | app/repositories.py:44-58 | history is at most `limit` messages, element i being message offset+i of the newest-first conversation |
| `MessageStore.MessageDb.CountHistory` | app/repositories.py:60-70 | the count is the number of messages between the two users |
| `Coherence.OtherKeyKeepsCoherent` | app/routers/auth.py:20 | writing any key that does not start with `conv:` cannot break the cache's agreement with the message store |
| `Coherence.AttemptKeepsCoherent` | app/routers/messages.py:31-39 | a rate-limit step on any key that does not start with `conv:` keeps every cached list a prefix of its conversation |
| `Coherence.ExpireKeepsCoherent` | app/cache.py:49 | expiry of any key keeps every cached list a prefix of its conversation |
| `Coherence.PushKeepsCoherent` | app/routers/messages.py:41-56 | persisting a message and then pushing it keeps every cached list a prefix of its conversation; on a coherent cache the push cannot raise |
| `Coherence.ReplaceKeepsCoherent` | app/routers/messages.py:87-90 | refilling from an offset-0 page keeps every cached list a prefix of its conversation |
| `Coherence.SliceOfPrefix` | app/cache.py:30 | the `[offset, offset+limit)` window of a prefix of a list is a prefix of the same window of that list |
| `Coherence.CoherentRead` | app/cache.py:18-31 | on a coherent cache a read never raises, and a hit is a prefix of the store's window at the same offset and limit |
| `AuthRouter.BucketKey` | app/routers/auth.py:19-20 | the login counter key is `rl:login:` followed by the address, which it determines |
| `AuthRouter.LoginResult` | app/routers/auth.py:51-60 | 429 exactly on rejection; a token exactly when allowed with valid credentials; 401 exactly when allowed with invalid ones; the error `int` raised on the counter when it fails |
| `AuthRouter.Login` | app/routers/auth.py:44-60 | the limiter runs on the client's bucket (`unknown` without a client) before the credentials are checked, so the counter changes identically whatever they are; the expiry is set only when the counter is created |
| `AuthRouter.LoginKeepsCoherent` | app/routers/auth.py:44-54 | a login leaves the conversation cache coherent |
| `AuthRouter.LoginRunIsAttempts` | app/routers/auth.py:44-60 | a run of logins changes the store exactly as the same number of limiter attempts does, and answers each according to its verdict and credentials |
| `AuthRouter.FreshClientLogins` | app/routers/auth.py:47-54 | from no window, logins 1-5 reach the credential check (failed ones included), the 6th onward get 429, and the counter ends at min(n, 5) |
| `MessagesRouter.RlKey` | app/routers/messages.py:19-20 | the send counter key is `rl:send:` followed by the user id |
| `MessagesRouter.KeyspacesDisjoint` | app/routers/messages.py:19-20 | login counters, send counters and conversation lists never share a key, and each counter key determines its subject |
| `MessagesRouter.SendSpec` | app/routers/messages.py:31-56 | 429 exactly when the limiter rejects; a request that persists nothing changes nothing; the limiter's error is the response when `int` fails; an allowed request persists the message with the next id, answers with exactly that message, and leaves the store as the limiter's increment followed by the push of that message, or only the increment and the push's error when the push raises; the send counter always holds what the limiter wrote |
| `MessagesRouter.Send` | app/routers/messages.py:23-57 | the handler changes the response, the cache and the message store as `SendSpec` says: limiter, then persist, then push; the send counter gets a 60 s expiry only when it is created, the conversation key gets a fresh 300 s expiry exactly when the message is sent, and no other expiry changes |
| `MessagesRouter.SendKeepsCoherent` | app/routers/messages.py:31-56 | on a coherent cache a send keeps it coherent, and an allowed send succeeds with its message at the head of both the conversation and its cached list |
| `MessagesRouter.HistorySpec` | app/routers/messages.py:69-92 | an error from reading the cache is raised unchanged; the cache answers only a non-null hit at offset 0, with no total; otherwise the page and total come from the message store, and the cache is overwritten with that page exactly on that path with offset 0, and is unchanged otherwise |
| `MessagesRouter.Messages` | app/routers/messages.py:60-92 | the handler answers and updates the cache as `HistorySpec` says, reading the cache on every request; the refill gives the conversation key a fresh 300 s expiry, and no other expiry changes |
| `MessagesRouter.HistoryAgreesWithStore` | app/routers/messages.py:69-92 | on a coherent cache a history request succeeds and keeps the cache coherent; its page is the store's page, or from the cache a prefix of it |
| `MessagesRouter.FreshStorePerRequest` | tests/conftest.py:95-100 | with a new store per request, history always comes from the message store and a first send is always allowed |
| `MessagesRouter.ThreeSendsThenFetch` | tests/test_messages.py:38-53 | three sends then a first-page fetch of 5 return the three messages newest first, with total 3 |

## Left out

- HTTP routing, request and response schemas, and dependency injection are
  not modelled. The one exception is the query bounds on `limit` (1 to 100)
  and `offset` (at least 0), which are preconditions of `Messages`.
- Password hashing, token issue and the user lookup in `login` are foreign
  calls. Their outcome enters as the boolean `credentialsValid`.
  Registration is not part of this model.
- The relational store is the per-pair sequence in `MessageStore`.
  `created_at` is a server default and is not modelled. Newest-first order
  is taken to be insertion order, so two messages with equal timestamps are
  not modelled.
- JSON is abstracted by `Value`.
- `ConversationCache.CachedWindow`: a `Text` value decodes only when it is a
  JSON integer, which is what the limiters write. Every other plain string
  is treated as undecodable, that is, as a miss. That includes strings
  `json.loads` accepts: floats, exponents, `true`, `false`, `null`, quoted
  strings, numbers padded with whitespace, and arrays and objects held as
  plain text. Python would slice a quoted string or an array, and would
  raise on the others.
- `ConversationCache.PushBase`: the same abstraction as for `CachedWindow`.
  Every plain string that is not a JSON integer starts the push from the
  empty list. Python would push onto an array held as plain text, and
  would raise `AttributeError` for the other decodable strings. The cache
  itself only writes lists as `Json` values, so a conversation key holds
  plain text only when something else wrote it there.
- `MessagesRouter.Messages`: building message responses from the cached
  dictionaries always succeeds, because cached messages are `Msg` records.
  A list of wrongly shaped dictionaries, which would fail validation, is not
  modelled.
- `Decimal.ParseInt` accepts only an optional sign and ASCII digits. The
  surrounding whitespace, underscores and non-ASCII digits that Python's
  `int` also accepts are not modelled.
- The model is sequential; concurrency is left out. With concurrent
  requests, two first requests can both see an absent counter, and two
  pushes can race so that the last writer wins. No property is stated about
  interleavings.
- Real-time expiry is not modelled. The ghost `ttl` map records the expiry
  each write requests, and `FakeRedis.Expire` is the explicit step that
  drops a key.
- Store unavailability (network errors), logging, request ids, CORS and
  configuration loading are not modelled.
