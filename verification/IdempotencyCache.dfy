/** The Redis client of the shop: idempotency keys with a lifetime of one day, next to the
    product cards. It refines the `redis` map of module Purchase: a set is CacheSet, time
    passing is a run of evictions. */
module IdempotencyCache {
  import opened Schema
  import P = Purchase

  const IDEMPOTENCY_TTL := 86_400
  const PRODUCT_CACHE_TTL := 300

  /** str(n) */
  function Decimal(n: int): (s: string)
    ensures s != ""
    decreases if n < 0 then 1 else 0, if n < 0 then -n else n
  {
    if n < 0 then "-" + Decimal(-n)
    else if n < 10 then ["0123456789"[n]]
    else Decimal(n / 10) + ["0123456789"[n % 10]]
  }

  /** int(s) */
  function Parse(s: string): int
    decreases |s|
  {
    if s == "" then 0
    else if s[0] == '-' then -Parse(s[1..])
    else 10 * Parse(s[..|s| - 1]) + (s[|s| - 1] as int - '0' as int)
  }

  lemma {:induction false} DecimalDigits(n: nat)
    ensures Decimal(n)[0] != '-' && Parse(Decimal(n)) == n
    decreases n
  {
    if n < 10 {
      assert Decimal(n)[..0] == "";
    } else {
      DecimalDigits(n / 10);
      assert Decimal(n)[..|Decimal(n)| - 1] == Decimal(n / 10);
    }
  }

  /** A number reads back as itself. */
  lemma ParseDecimal(n: int)
    ensures Parse(Decimal(n)) == n
  {
    if n < 0 {
      DecimalDigits(-n);
      assert Decimal(n)[1..] == Decimal(-n);
    } else {
      DecimalDigits(n);
    }
  }

  function IdemKey(k: Key): string {
    "idem:" + k.text
  }

  function ProductKey(productId: int): string {
    "product:" + Decimal(productId)
  }

  /** Different idempotency keys never share an entry, nor do they share one with a product. */
  lemma KeysApart(j: Key, k: Key, productId: int)
    ensures IdemKey(j) == IdemKey(k) ==> j == k
    ensures IdemKey(j) != ProductKey(productId)
    ensures "idem:" <= IdemKey(j) && "product:" <= ProductKey(productId)
  {
    assert IdemKey(j)[5..] == j.text && IdemKey(k)[5..] == k.text;
    assert IdemKey(j)[0] == 'i' && ProductKey(productId)[0] == 'p';
  }

  /** Different products never share an entry. */
  lemma ProductsApart(p: int, q: int)
    ensures ProductKey(p) == ProductKey(q) ==> p == q
  {
    ParseDecimal(p);
    ParseDecimal(q);
    assert ProductKey(p)[8..] == Decimal(p) && ProductKey(q)[8..] == Decimal(q);
  }

  datatype Value = Text(text: string) | Card(fields: map<string, string>)

  datatype Entry = Entry(value: Value, expiresAt: int)

  predicate Live(store: map<string, Entry>, now: int, name: string) {
    name in store && now < store[name].expiresAt
  }

  /** `known` is what the live idempotency entries say. */
  ghost predicate Represents(store: map<string, Entry>, now: int, known: map<Key, int>) {
    forall k :: (k in known <==> Live(store, now, IdemKey(k)))
      && (k in known ==> store[IdemKey(k)].value == Text(Decimal(known[k])))
  }

  /** While the store says what the `redis` map says, it answers a probe exactly when ProbeHit is
      enabled. */
  lemma ProbeIsAStep(store: map<string, Entry>, now: int, s: P.Shop, r: int)
    requires Represents(store, now, s.redis) && P.At(s, r, P.Probing)
    ensures P.Enabled(s, P.ProbeHit(r)) <==> Live(store, now, IdemKey(s.procs[r].req.key))
  {
  }

  /** A set is CacheSet: afterwards the store says what the map then says. */
  lemma SetIsAStep(store: map<string, Entry>, now: int, s: P.Shop, r: int)
    requires Represents(store, now, s.redis) && r in s.procs && s.procs[r].phase.Caching?
    ensures
      var name, id := IdemKey(s.procs[r].req.key), s.procs[r].phase.orderId;
      Represents(store[name := Entry(Text(Decimal(id)), now + IDEMPOTENCY_TTL)], now, P.Step(s, P.CacheSet(r)).redis)
  {
    forall j
      ensures IdemKey(j) == IdemKey(s.procs[r].req.key) ==> j == s.procs[r].req.key
    {
      KeysApart(j, s.procs[r].req.key, 0);
    }
  }

  /** What time leaves of the map, a run of evictions leaves of it, and of everything else all. */
  lemma {:induction false} ExpiryIsEviction(s: P.Shop, kept: map<Key, int>) returns (ls: seq<P.Label>)
    requires forall k :: k in kept ==> k in s.redis && s.redis[k] == kept[k]
    ensures forall l :: l in ls ==> l.Evict?
    ensures P.Exec(s, ls) == s.(redis := kept)
    decreases |s.redis|
  {
    if k :| k in s.redis && k !in kept {
      ls := ExpiryIsEviction(s.(redis := s.redis - {k}), kept);
      P.ExecConcat(s, [P.Evict(k)], ls);
      assert [P.Evict(k)][..0] == [];
      ls := [P.Evict(k)] + ls;
    } else {
      assert s.redis == kept;
      ls := [];
    }
  }

  class RedisStore {
    var store: map<string, Entry>
    var now: int                       // seconds
    ghost var known: map<Key, int>     // the `redis` map of the purchase protocol

    ghost predicate Valid()
      reads this
    {
      Represents(store, now, known)
    }

    constructor (now: int)
      ensures Valid() && known == map[]
    {
      store, this.now, known := map[], now, map[];
    }

    /** check_idempotency, and the truth test its caller makes on the answer. */
    method CheckIdempotency(k: Key) returns (cached: Option<string>, hit: bool)
      requires Valid()
      ensures hit <==> k in known
      ensures cached.Some? <==> k in known
      ensures cached.Some? ==> Parse(cached.value) == known[k]
    {
      if k in known {
        ParseDecimal(known[k]);
      }
      cached := None;
      if Live(store, now, IdemKey(k)) {
        cached := Some(store[IdemKey(k)].value.text);
      }
      hit := cached.Some? && cached.value != "";
    }

    /** set_idempotency */
    method SetIdempotency(k: Key, orderId: int)
      requires Valid()
      modifies this
      ensures Valid() && now == old(now)
      ensures known == old(known)[k := orderId]
      ensures exists text ::
        Parse(text) == orderId && store == old(store)[IdemKey(k) := Entry(Text(text), now + 24 * 60 * 60)]
    {
      ParseDecimal(orderId);
      store := store[IdemKey(k) := Entry(Text(Decimal(orderId)), now + IDEMPOTENCY_TTL)];
      known := known[k := orderId];
      forall j
        ensures IdemKey(j) == IdemKey(k) ==> j == k
      {
        KeysApart(j, k, 0);
      }
    }

    /** set_cached_product: the stock is never cached, and no idempotency entry is touched. */
    method SetCachedProduct(productId: int, data: map<string, string>)
      requires Valid()
      modifies this`store
      ensures Valid()
      ensures store == old(store)[ProductKey(productId) := Entry(Card(data - {"stock"}), now + 5 * 60)]
      ensures forall p :: p != productId ==>
        (ProductKey(p) in store <==> ProductKey(p) in old(store))
        && (ProductKey(p) in store ==> store[ProductKey(p)] == old(store)[ProductKey(p)])
    {
      forall p
        ensures ProductKey(p) == ProductKey(productId) ==> p == productId
      {
        ProductsApart(p, productId);
      }
      var safe := map name | name in data && name != "stock" :: data[name];
      assert safe == data - {"stock"};
      store := store[ProductKey(productId) := Entry(Card(safe), now + PRODUCT_CACHE_TTL)];
      forall j: Key
        ensures IdemKey(j) != ProductKey(productId)
      {
        KeysApart(j, j, productId);
      }
    }

    /** invalidate_product_cache */
    method InvalidateProductCache(productId: int)
      requires Valid()
      modifies this`store
      ensures Valid() && store == old(store) - {ProductKey(productId)}
      ensures forall p :: p != productId && ProductKey(p) in old(store) ==> ProductKey(p) in store
    {
      forall p
        ensures ProductKey(p) == ProductKey(productId) ==> p == productId
      {
        ProductsApart(p, productId);
      }
      store := store - {ProductKey(productId)};
      forall j: Key
        ensures IdemKey(j) != ProductKey(productId)
      {
        KeysApart(j, j, productId);
      }
    }

    /** Time passes: entries are lost, never changed, and the ones set within a day are kept. */
    method Wait(d: nat)
      requires Valid()
      modifies this`now, this`known
      ensures Valid() && now == old(now) + d
      ensures forall k :: k in known <==> k in old(known) && now < store[IdemKey(k)].expiresAt
      ensures forall k :: k in known ==> known[k] == old(known)[k]
    {
      now := now + d;
      known := map k | k in known && now < store[IdemKey(k)].expiresAt :: known[k];
    }
  }
}
