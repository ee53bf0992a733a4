/**
 * How the cache relates to the authoritative store. In a sequential run the
 * cached list of every conversation is a prefix of that conversation in the
 * message store: the newest messages, in the same order, possibly fewer.
 */
module Coherence {
  import opened KeyValue
  import opened ConversationCache
  import opened MessageStore
  import RateLimit

  ghost predicate IsPrefix(xs: seq<Msg>, ys: seq<Msg>)
  {
    |xs| <= |ys| && xs == ys[..|xs|]
  }

  ghost predicate CachedPrefixOf(v: Value, thread: seq<Msg>)
  {
    v.Json? && v.payload.Valid? && IsPrefix(v.payload.items, thread)
  }

  /** Every cached conversation is a decodable prefix of the stored one. */
  ghost predicate Coherent(st: Store, threads: Threads)
  {
    forall a: int, b: int :: ConversationKey(a, b) in st ==>
      CachedPrefixOf(st[ConversationKey(a, b)], ThreadOf(threads, a, b))
  }

  /** A window of a prefix is a prefix of the same window. */
  lemma SliceOfPrefix(xs: seq<Msg>, ys: seq<Msg>, offset: nat, limit: nat)
    requires IsPrefix(xs, ys)
    ensures IsPrefix(Slice(xs, offset, limit), Slice(ys, offset, limit))
  {
  }

  /** Writing a key outside the "conv:" namespace keeps the cache coherent. */
  lemma OtherKeyKeepsCoherent(st: Store, st': Store, threads: Threads, key: string)
    requires Coherent(st, threads)
    requires |key| < 5 || key[..5] != "conv:"
    requires forall k :: k != key ==> Lookup(st', k) == Lookup(st, k)
    ensures Coherent(st', threads)
  {
    forall a: int, b: int | ConversationKey(a, b) in st'
      ensures CachedPrefixOf(st'[ConversationKey(a, b)], ThreadOf(threads, a, b))
    {
      var k := ConversationKey(a, b);
      assert k[..5] == "conv:";
      assert Lookup(st', k) == Lookup(st, k);
    }
  }

  /** A rate-limit step on a key outside the "conv:" namespace keeps the cache coherent. */
  lemma AttemptKeepsCoherent(st: Store, threads: Threads, key: string, limit: int)
    requires Coherent(st, threads)
    requires |key| < 5 || key[..5] != "conv:"
    ensures Coherent(RateLimit.Attempt(st, key, limit).1, threads)
  {
    OtherKeyKeepsCoherent(st, RateLimit.Attempt(st, key, limit).1, threads, key);
  }

  /** A key that expires takes its list with it; the rest stays coherent. */
  lemma ExpireKeepsCoherent(st: Store, threads: Threads, key: string)
    requires Coherent(st, threads)
    ensures Coherent(st - {key}, threads)
  {
  }

  /**
   * Storing a message and then pushing it onto the pair's cache keeps the
   * cache coherent; the push cannot raise, since a coherent cache only holds
   * decodable lists.
   */
  lemma PushKeepsCoherent(st: Store, threads: Threads, sender: int, recipient: int, message: Msg)
    requires Coherent(st, threads)
    ensures PushedStore(st, sender, recipient, message).Ok?
    ensures Coherent(PushedStore(st, sender, recipient, message).value,
                     Appended(threads, sender, recipient, message))
  {
    var key := ConversationKey(sender, recipient);
    var threads' := Appended(threads, sender, recipient, message);
    var old_thread := ThreadOf(threads, sender, recipient);
    if key in st {
      assert CachedPrefixOf(st[key], old_thread);
    }
    var before := PushBase(Lookup(st, key));
    assert before.Ok? && IsPrefix(before.value, old_thread);
    var st' := PushedStore(st, sender, recipient, message).value;
    var items := Pushed(before.value, message);
    assert IsPrefix(items, [message] + old_thread) by {
      forall i | 0 <= i < |items| ensures items[i] == ([message] + old_thread)[i] {
        if i > 0 {
          assert items[i] == before.value[i - 1] == old_thread[i - 1];
        }
      }
    }
    forall a: int, b: int | ConversationKey(a, b) in st'
      ensures CachedPrefixOf(st'[ConversationKey(a, b)], ThreadOf(threads', a, b))
    {
      ConversationKeyIdentifiesPair(a, b, sender, recipient);
      if ConversationKey(a, b) == key {
        assert ThreadOf(threads', a, b) == [message] + old_thread;
      } else {
        assert ThreadOf(threads', a, b) == ThreadOf(threads, a, b);
      }
    }
  }

  /** Refilling the cache from the first page of the store keeps it coherent. */
  lemma ReplaceKeepsCoherent(st: Store, threads: Threads, userId: int, peerId: int, limit: nat)
    requires Coherent(st, threads)
    ensures Coherent(ReplacedStore(st, userId, peerId, Slice(ThreadOf(threads, userId, peerId), 0, limit)),
                     threads)
  {
    var key := ConversationKey(userId, peerId);
    var thread := ThreadOf(threads, userId, peerId);
    var page := Slice(thread, 0, limit);
    var st' := ReplacedStore(st, userId, peerId, page);
    assert IsPrefix(Truncated(page), thread) by {
      var t := Truncated(page);
      forall i | 0 <= i < |t| ensures t[i] == thread[i] {
        assert t[i] == page[i];
      }
    }
    forall a: int, b: int | ConversationKey(a, b) in st'
      ensures CachedPrefixOf(st'[ConversationKey(a, b)], ThreadOf(threads, a, b))
    {
      ConversationKeyIdentifiesPair(a, b, userId, peerId);
      if ConversationKey(a, b) != key {
        assert Lookup(st', ConversationKey(a, b)) == Lookup(st, ConversationKey(a, b));
      }
    }
  }

  /**
   * Reading a coherent cache never raises, and a hit is a prefix of the
   * window the store would return for the same offset and limit.
   */
  lemma CoherentRead(st: Store, threads: Threads, userId: int, peerId: int, offset: nat, limit: nat)
    requires Coherent(st, threads)
    ensures var r := CachedWindow(Lookup(st, ConversationKey(userId, peerId)), offset, limit);
            r.Ok? && (r.value.Some? ==>
              IsPrefix(r.value.value, Slice(ThreadOf(threads, userId, peerId), offset, limit)))
  {
    var key := ConversationKey(userId, peerId);
    if key in st && st[key].Json? && st[key].payload.Valid? {
      SliceOfPrefix(st[key].payload.items, ThreadOf(threads, userId, peerId), offset, limit);
    }
  }
}
