/**
 * The conversation cache: for each unordered pair of users, a newest-first
 * list of at most 50 message snapshots, kept as one JSON document in the
 * key-value store with a 300-second expiry.
 */
module ConversationCache {
  import opened Prelude
  import opened KeyValue
  import Decimal

  const ConversationTtlSeconds: nat := 300
  const ConversationCacheLimit: nat := 50

  /** `sorted((a, b))`: the pair in ascending order. */
  function PairOf(userA: int, userB: int): (p: (int, int))
    ensures p.0 <= p.1
    ensures {p.0, p.1} == {userA, userB}
  {
    if userA <= userB then (userA, userB) else (userB, userA)
  }

  function KeyOfPair(p: (int, int)): (key: string)
  {
    "conv:" + Decimal.IntToString(p.0) + ":" + Decimal.IntToString(p.1)
  }

  /** The store key of the conversation between two users. */
  function ConversationKey(userA: int, userB: int): (key: string)
    ensures |key| >= 8 && key[..5] == "conv:"
  {
    KeyOfPair(PairOf(userA, userB))
  }

  predicate NoColon(s: string)
  {
    forall i :: 0 <= i < |s| ==> s[i] != ':'
  }

  /** The part of a string before its first colon. */
  function UpToColon(x: string): (prefix: string)
  {
    if x == [] || x[0] == ':' then [] else [x[0]] + UpToColon(x[1..])
  }

  lemma {:induction false} UpToColonOf(s1: string, s2: string)
    requires NoColon(s1)
    ensures UpToColon(s1 + ":" + s2) == s1
  {
    var x := s1 + ":" + s2;
    if s1 == [] {
      assert x[0] == ':';
    } else {
      assert x[0] == s1[0];
      assert x[1..] == s1[1..] + ":" + s2;
      UpToColonOf(s1[1..], s2);
    }
  }

  lemma KeyOfPairInjective(p: (int, int), q: (int, int))
    requires KeyOfPair(p) == KeyOfPair(q)
    ensures p == q
  {
    var s1, s2 := Decimal.IntToString(p.0), Decimal.IntToString(p.1);
    var t1, t2 := Decimal.IntToString(q.0), Decimal.IntToString(q.1);
    var x := KeyOfPair(p);
    assert x == "conv:" + (s1 + ":" + s2);
    assert x == "conv:" + (t1 + ":" + t2);
    var tail := x[5..];
    assert tail == s1 + ":" + s2;
    assert tail == t1 + ":" + t2;
    UpToColonOf(s1, s2);
    UpToColonOf(t1, t2);
    assert s1 == t1;
    assert tail[|s1| + 1..] == s2;
    assert tail[|t1| + 1..] == t2;
    Decimal.IntToStringInjective(p.0, q.0);
    Decimal.IntToStringInjective(p.1, q.1);
  }

  /**
   * The key names the unordered pair and nothing else: two pairs of users
   * share a key exactly when they are the same two users, in either order.
   */
  lemma ConversationKeyIdentifiesPair(a: int, b: int, c: int, d: int)
    ensures ConversationKey(a, b) == ConversationKey(c, d) <==> PairOf(a, b) == PairOf(c, d)
    ensures ConversationKey(a, b) == ConversationKey(b, a)
  {
    if ConversationKey(a, b) == ConversationKey(c, d) {
      KeyOfPairInjective(PairOf(a, b), PairOf(c, d));
    }
  }

  /** `items[offset : offset + limit]` with Python's clamping at the end of the list. */
  function Slice<T>(items: seq<T>, offset: nat, limit: nat): (r: seq<T>)
    ensures |r| == if offset >= |items| then 0 else Min(limit, |items| - offset)
    ensures forall i :: 0 <= i < |r| ==> r[i] == items[offset + i]
  {
    if offset >= |items| then []
    else if offset + limit >= |items| then items[offset..]
    else items[offset..offset + limit]
  }

  /** `messages[:50]`: the first 50 elements, in order. */
  function Truncated(messages: seq<Msg>): (r: seq<Msg>)
    ensures |r| == Min(|messages|, ConversationCacheLimit)
    ensures forall i :: 0 <= i < |r| ==> r[i] == messages[i]
  {
    if |messages| > ConversationCacheLimit then messages[..ConversationCacheLimit] else messages
  }

  /** The list after `items.insert(0, message)` and the cut back to 50. */
  function Pushed(items: seq<Msg>, message: Msg): (r: seq<Msg>)
    ensures |r| == Min(|items| + 1, ConversationCacheLimit)
    ensures r[0] == message
    ensures forall i :: 1 <= i < |r| ==> r[i] == items[i - 1]
  {
    var xs := [message] + items;
    if |xs| > ConversationCacheLimit then xs[..ConversationCacheLimit] else xs
  }

  /**
   * What a read makes of the stored value: a miss for an absent key or a
   * string that does not decode; the `[offset, offset + limit)` window of a
   * decoded list; TypeError for a plain string that decodes to a JSON
   * number, which cannot be sliced.
   */
  function CachedWindow(raw: Option<Value>, offset: nat, limit: nat): (r: Result<Option<seq<Msg>>>)
    ensures raw.None? ==> r == Ok(None)
    ensures raw == Some(Json(Malformed)) ==> r == Ok(None)
    ensures r.Raised? <==> raw.Some? && raw.value.Text? && Decimal.IsJsonInteger(raw.value.s)
    ensures r.Ok? && r.value.Some? <==> raw.Some? && raw.value.Json? && raw.value.payload.Valid?
    ensures r.Ok? && r.value.Some? ==> r.value.value == Slice(raw.value.payload.items, offset, limit)
  {
    match raw
    case None => Ok(None)
    case Some(Text(s)) => if Decimal.IsJsonInteger(s) then Raised("TypeError") else Ok(None)
    case Some(Json(Malformed)) => Ok(None)
    case Some(Json(Valid(items))) => Ok(Some(Slice(items, offset, limit)))
  }

  /**
   * The list a push starts from: empty for an absent key, an empty string or
   * a string that does not decode; the decoded list otherwise;
   * AttributeError for a plain string that decodes to a JSON number, which
   * has no `insert`.
   */
  function PushBase(raw: Option<Value>): (r: Result<seq<Msg>>)
    ensures (raw.None? || (raw.value.Text? && !Decimal.IsJsonInteger(raw.value.s))
             || raw == Some(Json(Malformed))) ==> r == Ok([])
    ensures raw.Some? && raw.value.Json? && raw.value.payload.Valid? ==> r == Ok(raw.value.payload.items)
    ensures r.Raised? <==> raw.Some? && raw.value.Text? && Decimal.IsJsonInteger(raw.value.s)
  {
    match raw
    case None => Ok([])
    case Some(Text(s)) => if Decimal.IsJsonInteger(s) then Raised("AttributeError") else Ok([])
    case Some(Json(Malformed)) => Ok([])
    case Some(Json(Valid(items))) => Ok(items)
  }

  /** The store after a push onto the pair's conversation, or the error it raises. */
  function PushedStore(st: Store, userA: int, userB: int, message: Msg): (r: Result<Store>)
    ensures r.Raised? <==> PushBase(Lookup(st, ConversationKey(userA, userB))).Raised?
    ensures r.Ok? ==>
              var key := ConversationKey(userA, userB);
              var before := PushBase(Lookup(st, key));
              before.Ok? && r.value == st[key := Json(Valid(Pushed(before.value, message)))]
  {
    var key := ConversationKey(userA, userB);
    match PushBase(Lookup(st, key))
    case Ok(items) => Ok(st[key := Json(Valid(Pushed(items, message)))])
    case Raised(e) => Raised(e)
  }

  /** The store after the pair's cache is overwritten with a list. */
  function ReplacedStore(st: Store, userA: int, userB: int, messages: seq<Msg>): (r: Store)
    ensures ConversationKey(userA, userB) in r
    ensures r[ConversationKey(userA, userB)] == Json(Valid(Truncated(messages)))
    ensures forall k :: k != ConversationKey(userA, userB) ==> Lookup(r, k) == Lookup(st, k)
  {
    st[ConversationKey(userA, userB) := Json(Valid(Truncated(messages)))]
  }

  method GetConversationCache(redis: FakeRedis, userA: int, userB: int, limit: nat, offset: nat)
    returns (r: Result<Option<seq<Msg>>>)
    ensures r == CachedWindow(Lookup(redis.store, ConversationKey(userA, userB)), offset, limit)
  {
    var key := ConversationKey(userA, userB);
    var raw := redis.Get(key);
    match raw {
      case None =>
        return Ok(None);
      case Some(Text(s)) =>
        if !Decimal.IsJsonInteger(s) {
          return Ok(None);
        }
        return Raised("TypeError");
      case Some(Json(Malformed)) =>
        return Ok(None);
      case Some(Json(Valid(items))) =>
        r := Ok(Some(Slice(items, offset, limit)));
    }
  }

  /**
   * Read-modify-write of the pair's list: insert `message` at the head, keep
   * the 50 newest, write the whole list back with a fresh 300-second expiry.
   */
  method PushConversationCache(redis: FakeRedis, userA: int, userB: int, message: Msg)
    returns (r: Result<()>)
    modifies redis
    ensures var pushed := PushedStore(old(redis.store), userA, userB, message);
            && (pushed.Ok? ==> r.Ok? && redis.store == pushed.value)
            && (pushed.Raised? ==> r == Raised(pushed.error) && redis.store == old(redis.store))
    ensures r.Ok? ==> redis.ttl == old(redis.ttl)[ConversationKey(userA, userB) := ConversationTtlSeconds]
    ensures r.Raised? ==> redis.ttl == old(redis.ttl)
  {
    var key := ConversationKey(userA, userB);
    var raw := redis.Get(key);
    var items: seq<Msg> := [];
    match raw {
      case None =>
      case Some(Text(s)) =>
        if s != "" && Decimal.IsJsonInteger(s) {
          return Raised("AttributeError");
        }
      case Some(Json(Malformed)) =>
      case Some(Json(Valid(xs))) =>
        items := xs;
    }
    items := [message] + items;
    if |items| > ConversationCacheLimit {
      items := items[..ConversationCacheLimit];
    }
    redis.Set(key, Json(Valid(items)), Some(ConversationTtlSeconds));
    r := Ok(());
  }

  /** Overwrites the pair's list with the first 50 of `messages`, with a fresh expiry. */
  method SetConversationCache(redis: FakeRedis, userA: int, userB: int, messages: seq<Msg>)
    modifies redis
    ensures redis.store == ReplacedStore(old(redis.store), userA, userB, messages)
    ensures redis.ttl == old(redis.ttl)[ConversationKey(userA, userB) := ConversationTtlSeconds]
  {
    var key := ConversationKey(userA, userB);
    redis.Set(key, Json(Valid(Truncated(messages))), Some(ConversationTtlSeconds));
  }

  function Reversed(s: seq<Msg>): (r: seq<Msg>)
    ensures |r| == |s|
    ensures forall i :: 0 <= i < |r| ==> r[i] == s[|s| - 1 - i]
  {
    if s == [] then [] else Reversed(s[1..]) + [s[0]]
  }

  /** The list after pushing `ms[0]`, then `ms[1]`, and so on. */
  function PushAll(items: seq<Msg>, ms: seq<Msg>): (r: seq<Msg>)
    decreases ms
  {
    if ms == [] then items else PushAll(Pushed(items, ms[0]), ms[1..])
  }

  lemma TruncatedOfTruncated(a: seq<Msg>, b: seq<Msg>)
    ensures Truncated(a + Truncated(b)) == Truncated(a + b)
  {
  }

  /** One push is the message in front of the old list, cut back to 50. */
  lemma PushedIsTruncated(items: seq<Msg>, message: Msg)
    ensures Pushed(items, message) == Truncated([message] + items)
  {
  }

  lemma {:induction false} PushAllNewestFirst(items: seq<Msg>, ms: seq<Msg>)
    requires |items| <= ConversationCacheLimit
    ensures PushAll(items, ms) == Truncated(Reversed(ms) + items)
    decreases ms
  {
    if ms == [] {
      assert Reversed(ms) + items == items;
      assert Truncated(items) == items;
    } else {
      var m, rest := ms[0], ms[1..];
      var pushed := Pushed(items, m);
      PushedIsTruncated(items, m);
      PushAllNewestFirst(pushed, rest);
      assert PushAll(items, ms) == Truncated(Reversed(rest) + Truncated([m] + items));
      TruncatedOfTruncated(Reversed(rest), [m] + items);
      assert Reversed(ms) == Reversed(rest) + [m];
      assert Reversed(rest) + ([m] + items) == Reversed(ms) + items;
    }
  }

  /**
   * Pushes onto an absent conversation: the list holds the last
   * min(k, 50) of the k messages pushed, the most recent first, and the
   * oldest ones beyond 50 are gone.
   */
  lemma PushesFromEmpty(ms: seq<Msg>)
    ensures |PushAll([], ms)| == Min(|ms|, ConversationCacheLimit)
    ensures forall i :: 0 <= i < |PushAll([], ms)| ==> PushAll([], ms)[i] == ms[|ms| - 1 - i]
    ensures |ms| <= ConversationCacheLimit ==> PushAll([], ms) == Reversed(ms)
  {
    PushAllNewestFirst([], ms);
    assert Reversed(ms) + [] == Reversed(ms);
  }
}
