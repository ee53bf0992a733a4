/**
 * The message endpoints: `send` (rate limit per user, store the message,
 * push it onto the conversation cache) and `messages` (the first page from
 * the cache when it has the conversation, otherwise from the message store,
 * refilling the cache from a first page).
 */
module MessagesRouter {
  import opened Prelude
  import opened KeyValue
  import opened ConversationCache
  import opened RateLimit
  import opened MessageStore
  import opened Coherence
  import Decimal
  import AuthRouter

  const SendsPerWindow: nat := 30

  /** The counter key of a sender, in the "rl:send:" namespace. */
  function RlKey(userId: int): (key: string)
    ensures |key| > 8 && key[..8] == "rl:send:" && key[8..] == Decimal.IntToString(userId)
  {
    "rl:send:" + Decimal.IntToString(userId)
  }

  /**
   * The three namespaces never meet: login counters, send counters and
   * conversation lists use distinct keys, and each namespace is keyed
   * one-to-one by its subject.
   */
  lemma KeyspacesDisjoint(ip: string, ip': string, userId: int, userId': int, a: int, b: int)
    ensures AuthRouter.BucketKey(ip) != RlKey(userId)
    ensures AuthRouter.BucketKey(ip) != ConversationKey(a, b)
    ensures RlKey(userId) != ConversationKey(a, b)
    ensures AuthRouter.BucketKey(ip) == AuthRouter.BucketKey(ip') <==> ip == ip'
    ensures RlKey(userId) == RlKey(userId') <==> userId == userId'
  {
    var login, send, conv := AuthRouter.BucketKey(ip), RlKey(userId), ConversationKey(a, b);
    assert login[3] == 'l' && send[3] == 's';
    assert login[0] == 'r' && conv[0] == 'c';
    assert send[0] == 'r';
    Decimal.IntToStringInjective(userId, userId');
  }

  /** 200 with the stored message, 429, or the error raised along the way. */
  datatype SendResponse = Sent(message: Msg) | RateLimitExceeded | SendError(error: string)

  /** Everything a send can change: the response, the key-value store and the message store. */
  datatype SendState = SendState(response: SendResponse, store: Store, threads: Threads, nextId: int)

  /** One send request from `userId`. */
  function SendSpec(st: Store, threads: Threads, nextId: int, userId: int, recipientId: int, content: string)
    : (r: SendState)
    ensures r.response == RateLimitExceeded <==> Attempt(st, RlKey(userId), SendsPerWindow).0 == Rejected
    ensures r.nextId == nextId ==> r.store == st && r.threads == threads && !r.response.Sent?
    ensures Attempt(st, RlKey(userId), SendsPerWindow).0 == Allowed ==>
              var m := Msg(nextId, userId, recipientId, content);
              r.nextId == nextId + 1 && r.threads == Appended(threads, userId, recipientId, m)
              && (r.response.Sent? ==> r.response.message == m)
    ensures Attempt(st, RlKey(userId), SendsPerWindow).0 != Allowed ==> r.nextId == nextId
    ensures var (v, st1) := Attempt(st, RlKey(userId), SendsPerWindow);
            var m := Msg(nextId, userId, recipientId, content);
            var pushed := PushedStore(st1, userId, recipientId, m);
            && (v == Allowed && pushed.Ok? ==> r.store == pushed.value && r.response == Sent(m))
            && (v == Allowed && pushed.Raised? ==> r.store == st1 && r.response == SendError(pushed.error))
            && (v.Failed? ==> r.response == SendError(v.error))
    ensures Lookup(r.store, RlKey(userId)) == Lookup(Attempt(st, RlKey(userId), SendsPerWindow).1, RlKey(userId))
  {
    KeyspacesDisjoint("", "", userId, userId, userId, recipientId);
    var (verdict, st1) := Attempt(st, RlKey(userId), SendsPerWindow);
    match verdict
    case Rejected => SendState(RateLimitExceeded, st, threads, nextId)
    case Failed(e) => SendState(SendError(e), st, threads, nextId)
    case Allowed =>
      var m := Msg(nextId, userId, recipientId, content);
      var threads1 := Appended(threads, userId, recipientId, m);
      match PushedStore(st1, userId, recipientId, m)
      case Ok(st2) => SendState(Sent(m), st2, threads1, nextId + 1)
      case Raised(e) => SendState(SendError(e), st1, threads1, nextId + 1)
  }

  /**
   * The `send` handler: the limiter runs first and a refusal leaves both
   * stores alone; an allowed message is stored, and only then pushed onto
   * the conversation cache.
   */
  method Send(redis: FakeRedis, db: MessageDb, userId: int, recipientId: int, content: string)
    returns (resp: SendResponse)
    modifies redis, db
    ensures SendState(resp, redis.store, db.threads, db.nextId)
            == SendSpec(old(redis.store), old(db.threads), old(db.nextId), userId, recipientId, content)
    ensures var rl := RlKey(userId);
            var windowed := if rl in old(redis.store) then old(redis.ttl) else old(redis.ttl)[rl := WindowSeconds];
            redis.ttl == if resp.Sent? then windowed[ConversationKey(userId, recipientId) := ConversationTtlSeconds]
                         else windowed
  {
    var verdict := CheckAndIncrement(redis, RlKey(userId), SendsPerWindow);
    if verdict.Rejected? {
      return RateLimitExceeded;
    }
    if verdict.Failed? {
      return SendError(verdict.error);
    }
    var m := db.Create(userId, recipientId, content);
    var pushed := PushConversationCache(redis, userId, recipientId, m);
    if pushed.Raised? {
      return SendError(pushed.error);
    }
    resp := Sent(m);
  }

  /**
   * On a coherent cache a send keeps it coherent; an allowed send always
   * succeeds and its message heads both the stored conversation and its
   * cached list.
   */
  lemma SendKeepsCoherent(st: Store, threads: Threads, nextId: int, userId: int, recipientId: int, content: string)
    requires Coherent(st, threads)
    ensures var r := SendSpec(st, threads, nextId, userId, recipientId, content);
            && Coherent(r.store, r.threads)
            && (Attempt(st, RlKey(userId), SendsPerWindow).0 == Allowed ==>
                  var m := Msg(nextId, userId, recipientId, content);
                  var key := ConversationKey(userId, recipientId);
                  && r.response == Sent(m)
                  && ThreadOf(r.threads, userId, recipientId)[0] == m
                  && key in r.store && r.store[key].Json? && r.store[key].payload.Valid?
                  && r.store[key].payload.items[0] == m)
  {
    var key := RlKey(userId);
    assert key[0] == 'r';
    AttemptKeepsCoherent(st, threads, key, SendsPerWindow);
    var (verdict, st1) := Attempt(st, key, SendsPerWindow);
    if verdict == Allowed {
      var m := Msg(nextId, userId, recipientId, content);
      PushKeepsCoherent(st1, threads, userId, recipientId, m);
    }
  }

  /** A page of history; `total` is only filled in when the page came from the message store. */
  datatype Page = Page(messages: seq<Msg>, limit: nat, offset: nat, total: Option<nat>)

  /** One history request: the response and the key-value store afterwards. */
  function HistorySpec(st: Store, threads: Threads, userId: int, peerId: int, limit: nat, offset: nat)
    : (r: (Result<Page>, Store))
    ensures var cached := CachedWindow(Lookup(st, ConversationKey(userId, peerId)), offset, limit);
            && (r.0.Raised? <==> cached.Raised?)
            && (r.0.Raised? ==> r.0.error == cached.error)
            && (r.0.Ok? && r.0.value.total.None? <==> cached.Ok? && cached.value.Some? && offset == 0)
            && (r.0.Ok? && r.0.value.total.None? ==> r.0.value.messages == cached.value.value)
    ensures r.0.Ok? ==> r.0.value.limit == limit && r.0.value.offset == offset
    ensures r.0.Ok? && r.0.value.total.Some? ==>
              var thread := ThreadOf(threads, userId, peerId);
              r.0.value.messages == Slice(thread, offset, limit) && r.0.value.total.value == |thread|
    ensures offset == 0 && r.0.Ok? && r.0.value.total.Some? ==>
              r.1 == ReplacedStore(st, userId, peerId, r.0.value.messages)
    ensures !(offset == 0 && r.0.Ok? && r.0.value.total.Some?) ==> r.1 == st
  {
    var cached := CachedWindow(Lookup(st, ConversationKey(userId, peerId)), offset, limit);
    if cached.Raised? then (Raised(cached.error), st)
    else if cached.value.Some? && offset == 0 then (Ok(Page(cached.value.value, limit, offset, None)), st)
    else
      var thread := ThreadOf(threads, userId, peerId);
      var page := Slice(thread, offset, limit);
      var st' := if offset == 0 then ReplacedStore(st, userId, peerId, page) else st;
      (Ok(Page(page, limit, offset, Some(|thread|))), st')
  }

  /**
   * The `messages` handler: reads the cache on every request, answers from it
   * only for a hit on the first page, and otherwise asks the message store,
   * writing a first page back to the cache.
   */
  method Messages(redis: FakeRedis, db: MessageDb, userId: int, peerId: int, limit: nat, offset: nat)
    returns (r: Result<Page>)
    requires 1 <= limit <= 100
    modifies redis
    ensures (r, redis.store) == HistorySpec(old(redis.store), db.threads, userId, peerId, limit, offset)
    ensures redis.ttl == if offset == 0 && r.Ok? && r.value.total.Some?
                         then old(redis.ttl)[ConversationKey(userId, peerId) := ConversationTtlSeconds]
                         else old(redis.ttl)
  {
    var cached := GetConversationCache(redis, userId, peerId, limit, offset);
    if cached.Raised? {
      return Raised(cached.error);
    }
    if cached.value.Some? && offset == 0 {
      return Ok(Page(cached.value.value, limit, offset, None));
    }
    var msgs := db.History(userId, peerId, limit, offset);
    if offset == 0 {
      SetConversationCache(redis, userId, peerId, msgs);
    }
    var total := db.CountHistory(userId, peerId);
    r := Ok(Page(msgs, limit, offset, Some(total)));
  }

  /**
   * On a coherent cache a history request succeeds, keeps the cache
   * coherent, and answers with the message store's page or, from the cache,
   * a prefix of it: the newest messages in order, never a stale or foreign
   * one, though possibly fewer than the store holds.
   */
  lemma HistoryAgreesWithStore(st: Store, threads: Threads, userId: int, peerId: int, limit: nat, offset: nat)
    requires Coherent(st, threads)
    ensures var (r, st') := HistorySpec(st, threads, userId, peerId, limit, offset);
            var page := Slice(ThreadOf(threads, userId, peerId), offset, limit);
            && r.Ok?
            && IsPrefix(r.value.messages, page)
            && (r.value.total.Some? ==> r.value.messages == page)
            && Coherent(st', threads)
  {
    CoherentRead(st, threads, userId, peerId, offset, limit);
    var page := Slice(ThreadOf(threads, userId, peerId), offset, limit);
    if offset == 0 {
      ReplaceKeepsCoherent(st, threads, userId, peerId, limit);
    }
    assert IsPrefix(page, page);
  }

  /**
   * Every request in the test suite gets a new, empty store, so history is
   * always answered by the message store there, and the first send of a
   * user is always allowed.
   */
  lemma FreshStorePerRequest(threads: Threads, nextId: int, userId: int, peerId: int, content: string, limit: nat, offset: nat)
    ensures HistorySpec(map[], threads, userId, peerId, limit, offset).0.Ok?
    ensures HistorySpec(map[], threads, userId, peerId, limit, offset).0.value.total.Some?
    ensures SendSpec(map[], threads, nextId, userId, peerId, content).response
              == Sent(Msg(nextId, userId, peerId, content))
  {
    var st1 := Attempt(map[], RlKey(userId), SendsPerWindow).1;
    assert ConversationKey(userId, peerId) !in st1 by {
      KeyspacesDisjoint("", "", userId, userId, userId, peerId);
    }
  }

  /**
   * Three sends from one user to another followed by a first-page fetch of
   * five, each request on a new store: the fetch returns the three messages,
   * newest first, from the message store.
   */
  lemma ThreeSendsThenFetch(a: int, b: int)
    ensures var s0 := SendSpec(map[], map[], 1, a, b, "m0");
            var s1 := SendSpec(map[], s0.threads, s0.nextId, a, b, "m1");
            var s2 := SendSpec(map[], s1.threads, s1.nextId, a, b, "m2");
            HistorySpec(map[], s2.threads, a, b, 5, 0).0
              == Ok(Page([Msg(3, a, b, "m2"), Msg(2, a, b, "m1"), Msg(1, a, b, "m0")], 5, 0, Some(3)))
  {
    var s0 := SendSpec(map[], map[], 1, a, b, "m0");
    FreshStorePerRequest(map[], 1, a, b, "m0", 5, 0);
    var s1 := SendSpec(map[], s0.threads, s0.nextId, a, b, "m1");
    FreshStorePerRequest(s0.threads, s0.nextId, a, b, "m1", 5, 0);
    var s2 := SendSpec(map[], s1.threads, s1.nextId, a, b, "m2");
    FreshStorePerRequest(s1.threads, s1.nextId, a, b, "m2", 5, 0);
    assert ThreadOf(s2.threads, a, b) == [Msg(3, a, b, "m2"), Msg(2, a, b, "m1"), Msg(1, a, b, "m0")];
  }
}
