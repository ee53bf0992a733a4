/**
 * The key-value store the cache and the rate limiters are built on, as the
 * in-memory `FakeRedis` of the test suite implements it: one dictionary from
 * string keys to values, with `get`, `set` and `incr`.
 */
module KeyValue {
  import opened Prelude
  import Decimal

  /**
   * A message snapshot as the cache stores it (the JSON form of a message
   * response). The cache passes it through without looking inside.
   */
  datatype Msg = Msg(id: int, senderId: int, recipientId: int, content: string)

  /** What `json.loads` makes of a cached conversation: a list, or a decoding failure. */
  datatype Payload = Valid(items: seq<Msg>) | Malformed

  /**
   * A stored string. `Text` is a plain string such as the counters written
   * by `set(key, "1")` and `incr`; `Json` is a string holding a JSON
   * document, as `json.dumps` writes it, or one that does not decode.
   */
  datatype Value = Text(s: string) | Json(payload: Payload)

  type Store = map<string, Value>

  /** `dict.get(key)`: the stored value, or None when the key was never written. */
  function Lookup(st: Store, key: string): (v: Option<Value>)
    ensures v.Some? <==> key in st
    ensures v.Some? ==> v.value == st[key]
  {
    if key in st then Some(st[key]) else None
  }

  /** `int(value)`; None where Python raises ValueError (a JSON document is never a numeral). */
  function IntOf(v: Value): (r: Option<int>)
    ensures v.Json? ==> r.None?
    ensures v.Text? ==> r == Decimal.ParseInt(v.s)
  {
    match v
    case Text(s) => Decimal.ParseInt(s)
    case Json(_) => None
  }

  /** The number `incr(key)` returns: a missing key counts as "0". */
  function Incremented(st: Store, key: string): (r: Result<int>)
    ensures key !in st ==> r == Ok(1)
    ensures r.Ok? <==> key !in st || IntOf(st[key]).Some?
    ensures key in st && r.Ok? ==> r.value == IntOf(st[key]).value + 1
  {
    if key !in st then Ok(1)
    else match IntOf(st[key])
      case Some(n) => Ok(n + 1)
      case None => Raised("ValueError")
  }

  /**
   * What `incr` leaves behind reads back, through `int`, as the number it
   * returned; no other key changes.
   */
  lemma IncrementReadsBack(st: Store, key: string)
    requires Incremented(st, key).Ok?
    ensures var n := Incremented(st, key).value;
            var st' := st[key := Text(Decimal.IntToString(n))];
            IntOf(st'[key]) == Some(n)
            && (key !in st ==> n == 1)
            && forall k :: k != key ==> Lookup(st', k) == Lookup(st, k)
  {
    Decimal.IntRoundTrip(Incremented(st, key).value);
  }

  class FakeRedis {
    /** `self.store`: the whole state the fake keeps. */
    var store: Store
    /**
     * The expiry, in seconds, the latest write asked for on each key. The fake
     * ignores it; a real store would drop the key when it elapses, which
     * `Expire` stands for.
     */
    ghost var ttl: map<string, nat>

    /** Every request gets a new, empty fake. */
    constructor ()
      ensures store == map[] && ttl == map[]
    {
      store := map[];
      ttl := map[];
    }

    method Get(key: string) returns (v: Option<Value>)
      ensures v == Lookup(store, key)
    {
      v := if key in store then Some(store[key]) else None;
    }

    /** Overwrites unconditionally; `ex` does not affect what is stored. */
    method Set(key: string, value: Value, ex: Option<nat>)
      modifies this
      ensures store == old(store)[key := value]
      ensures ttl == if ex.Some? then old(ttl)[key := ex.value] else old(ttl) - {key}
    {
      store := store[key := value];
      ttl := if ex.Some? then ttl[key := ex.value] else ttl - {key};
    }

    /**
     * Adds one to the counter under `key` (absent counts as "0"), stores the
     * new number as its decimal string and returns it. Raises ValueError,
     * changing nothing, when the stored string is not a numeral. Keeps the
     * key's expiry.
     */
    method Incr(key: string) returns (r: Result<int>)
      modifies this
      ensures r == Incremented(old(store), key)
      ensures r.Ok? ==> store == old(store)[key := Text(Decimal.IntToString(r.value))]
      ensures r.Raised? ==> store == old(store)
      ensures ttl == old(ttl)
    {
      var current := if key in store then store[key] else Text("0");
      match IntOf(current)
      case None =>
        r := Raised("ValueError");
      case Some(n) =>
        store := store[key := Text(Decimal.IntToString(n + 1))];
        r := Ok(n + 1);
    }

    /**
     * The moment a key's expiry elapses in a real store: the key disappears.
     * Only keys written with an expiry can expire.
     */
    method Expire(key: string)
      requires key in ttl
      modifies this
      ensures store == old(store) - {key}
      ensures ttl == old(ttl) - {key}
    {
      store := store - {key};
      ttl := ttl - {key};
    }
  }
}
