/**
 * The authoritative message store, reduced to what the routers use: per
 * unordered pair of users, the conversation newest first; history is a
 * window of it and the count is its length.
 */
module MessageStore {
  import opened KeyValue
  import opened ConversationCache

  type Threads = map<(int, int), seq<Msg>>

  /** The messages between two users, in either direction, newest first. */
  function ThreadOf(threads: Threads, userA: int, userB: int): (thread: seq<Msg>)
  {
    var p := PairOf(userA, userB);
    if p in threads then threads[p] else []
  }

  /** The threads after `message` is stored between sender and recipient. */
  function Appended(threads: Threads, sender: int, recipient: int, message: Msg): (r: Threads)
    ensures ThreadOf(r, sender, recipient) == [message] + ThreadOf(threads, sender, recipient)
    ensures ThreadOf(r, recipient, sender) == [message] + ThreadOf(threads, sender, recipient)
    ensures forall a, b :: PairOf(a, b) != PairOf(sender, recipient) ==>
              ThreadOf(r, a, b) == ThreadOf(threads, a, b)
  {
    threads[PairOf(sender, recipient) := [message] + ThreadOf(threads, sender, recipient)]
  }

  class MessageDb {
    var threads: Threads
    /** The identifier the next stored message receives. */
    var nextId: int

    constructor ()
      ensures threads == map[] && nextId == 1
    {
      threads := map[];
      nextId := 1;
    }

    /** Stores a message; it becomes the newest of its conversation. */
    method Create(sender: int, recipient: int, content: string) returns (m: Msg)
      modifies this
      ensures m == Msg(old(nextId), sender, recipient, content)
      ensures threads == Appended(old(threads), sender, recipient, m)
      ensures nextId == old(nextId) + 1
    {
      m := Msg(nextId, sender, recipient, content);
      threads := Appended(threads, sender, recipient, m);
      nextId := nextId + 1;
    }

    /** The page of the conversation that LIMIT/OFFSET select, newest first. */
    method History(userId: int, peerId: int, limit: nat, offset: nat) returns (page: seq<Msg>)
      ensures |page| <= limit
      ensures forall i :: 0 <= i < |page| ==>
                offset + i < |ThreadOf(threads, userId, peerId)|
                && page[i] == ThreadOf(threads, userId, peerId)[offset + i]
      ensures page == Slice(ThreadOf(threads, userId, peerId), offset, limit)
    {
      page := Slice(ThreadOf(threads, userId, peerId), offset, limit);
    }

    method CountHistory(userId: int, peerId: int) returns (n: nat)
      ensures n == |ThreadOf(threads, userId, peerId)|
    {
      n := |ThreadOf(threads, userId, peerId)|;
    }
  }
}
