/**
 * `FetchDataTrait`: the read-through cache in front of a select. A call bypasses
 * the cache when caching is off or there is no adapter; otherwise a truthy cached
 * value is returned as it is, and on a miss the statement is executed once with
 * caching off and the result stored under the statement's cache key. The driver
 * (`db->exec(...)->fetch*()`) and md5 are outside the model and are passed in as
 * functions; both cache backends are one map store.
 */
module Fetch {
  import opened Php

  /** What the driver or the cache hands back, as far as truthiness is concerned. */
  datatype Data = Null | False | List(items: seq<Data>) | Object(id: nat) | Value(scalar: Scalar)

  predicate DataTruthy(d: Data) {
    match d
    case Null => false
    case False => false
    case List(items) => items != []
    case Object(_) => true
    case Value(x) => x != Scalar.Null && x != Bool(false) && x != Int(0) && !(x.Str? && !Truthy(x.s))
  }

  /** The `$cacheTtl` argument: `false` turns caching off; `true` is not a valid TTL to store. */
  datatype CacheTtl = TtlFalse | TtlTrue | TtlNull | TtlSeconds(seconds: int) | TtlInterval(spec: string)

  /** The four fetch methods differ only in how the direct path coerces a falsy result. */
  datatype FetchKind = FetchAll | FetchOne | FetchObject | FetchColumn

  /** `?: []` for fetchAll, `?: null` for fetchObject and fetchColumn, nothing for fetch. */
  function Coerce(kind: FetchKind, d: Data): (r: Data)
    ensures DataTruthy(d) ==> r == d
  {
    if DataTruthy(d) || kind == FetchOne then d
    else if kind == FetchAll then List([])
    else Data.Null
  }

  const CachePrefix := "db.select."

  /** `getCacheId`: the prefix and the hash of the rendered text; bound values play no part. */
  function CacheId(md5: string -> string, text: string): (r: string)
    ensures |r| >= |CachePrefix| && r[..|CachePrefix|] == CachePrefix
  {
    CachePrefix + md5(text)
  }

  /**
   * How a fetch ends: a result, the TypeError of storing with `$cacheTtl === true`,
   * or the TypeError of returning a value of the wrong shape.
   */
  datatype Outcome = Result(data: Data) | TtlTypeError | ReturnTypeError

  /** The declared return types: `array` for fetchAll, `null|object` for fetchObject, `mixed` otherwise. */
  predicate Returnable(kind: FetchKind, d: Data) {
    match kind
    case FetchAll => d.List?
    case FetchObject => d.Null? || d.Object?
    case _ => true
  }

  /** Leaving a fetch method with d: PHP checks d against the declared return type. */
  function Return(kind: FetchKind, d: Data): (r: Outcome)
    ensures r.Result? <==> Returnable(kind, d)
    ensures r.Result? ==> r.data == d
  {
    if Returnable(kind, d) then Result(d) else ReturnTypeError
  }

  /** The cache adapter: entries with the TTL they were stored with. */
  class CacheStore {
    var entries: map<string, (Data, CacheTtl)>

    constructor ()
      ensures entries == map[]
    {
      entries := map[];
    }

    /** `getCachedValue`: the stored value, or null when the adapter has no item. */
    method GetCachedValue(id: string) returns (d: Data)
      ensures d == if id in entries then entries[id].0 else Data.Null
    {
      if id in entries {
        return entries[id].0;
      }
      return Data.Null;
    }

    /** `cacheResult`. */
    method CacheResult(id: string, ttl: CacheTtl, d: Data)
      requires ttl != TtlTrue && ttl != TtlFalse
      modifies this
      ensures entries == old(entries)[id := (d, ttl)]
    {
      entries := entries[id := (d, ttl)];
    }
  }

  /**
   * One fetch: the outcome, the store afterwards and how often the statement was
   * executed. `store` is None when the statement has no cache adapter.
   */
  function FetchSpec(kind: FetchKind, ttl: CacheTtl, store: Option<map<string, (Data, CacheTtl)>>,
                     text: string, md5: string -> string, driver: string -> Data)
    : (r: (Outcome, Option<map<string, (Data, CacheTtl)>>, nat))
    ensures r.2 <= 1 && (r.2 == 0 ==> r.1 == store)
    ensures r.1.Some? <==> store.Some?
    ensures r.0.Result? ==> Returnable(kind, r.0.data)
    ensures store.Some? && r.1.Some? ==>
      && r.1.value.Keys <= store.value.Keys + {CacheId(md5, text)}
      && forall id :: id in store.value && id != CacheId(md5, text) ==> id in r.1.value && r.1.value[id] == store.value[id]
  {
    if ttl == TtlFalse || store.None? then (Return(kind, Coerce(kind, driver(text))), store, 1)
    else
      var id := CacheId(md5, text);
      var cached := if id in store.value then store.value[id].0 else Data.Null;
      if DataTruthy(cached) then (Return(kind, cached), store, 0)
      else
        var direct := Return(kind, Coerce(kind, driver(text)));
        if direct.ReturnTypeError? then (direct, store, 1)
        else if ttl == TtlTrue then (TtlTypeError, store, 1)
        else (direct, Some(store.value[id := (direct.data, ttl)]), 1)
  }

  /** `fetchAll` / `fetch` / `fetchObject` / `fetchColumn`. */
  method Fetch(kind: FetchKind, ttl: CacheTtl, store: CacheStore?, text: string,
               md5: string -> string, driver: string -> Data) returns (outcome: Outcome, executions: nat)
    modifies store
    ensures var (o, after, n) := FetchSpec(kind, ttl, if store == null then None else Some(old(store.entries)),
                                          text, md5, driver);
      && outcome == o && executions == n
      && (store != null ==> after == Some(store.entries))
  {
    if ttl == TtlFalse || store == null {
      return Return(kind, Coerce(kind, driver(text))), 1;
    }
    var id := CacheId(md5, text);
    var cached := store.GetCachedValue(id);
    if DataTruthy(cached) {
      return Return(kind, cached), 0;
    }
    var d := Coerce(kind, driver(text));
    executions := 1;
    if !Returnable(kind, d) {
      return ReturnTypeError, executions;
    }
    if ttl == TtlTrue {
      return TtlTypeError, executions;
    }
    store.CacheResult(id, ttl, d);
    outcome := Result(d);
  }

  /** Caching off, or no adapter: the statement runs once and the cache is left alone. */
  lemma Bypass(kind: FetchKind, ttl: CacheTtl, store: Option<map<string, (Data, CacheTtl)>>,
               text: string, md5: string -> string, driver: string -> Data)
    requires ttl == TtlFalse || store.None?
    ensures var (o, after, n) := FetchSpec(kind, ttl, store, text, md5, driver);
      o == Return(kind, Coerce(kind, driver(text))) && after == store && n == 1
      && (kind == FetchAll && !DataTruthy(driver(text)) ==> o == Result(List([])))
      && (kind in {FetchObject, FetchColumn} && !DataTruthy(driver(text)) ==> o == Result(Data.Null))
  {
  }

  /**
   * A truthy cached value is returned without running the statement, whatever the
   * driver would say, provided it fits the method's return type; one that does not
   * (an object cached by fetchObject, read by fetchAll) is a TypeError.
   */
  lemma Hit(kind: FetchKind, ttl: CacheTtl, m: map<string, (Data, CacheTtl)>, text: string,
            md5: string -> string, driver1: string -> Data, driver2: string -> Data)
    requires ttl != TtlFalse && CacheId(md5, text) in m && DataTruthy(m[CacheId(md5, text)].0)
    ensures FetchSpec(kind, ttl, Some(m), text, md5, driver1) == FetchSpec(kind, ttl, Some(m), text, md5, driver2)
    ensures FetchSpec(kind, ttl, Some(m), text, md5, driver1) == (Return(kind, m[CacheId(md5, text)].0), Some(m), 0)
    ensures FetchSpec(kind, ttl, Some(m), text, md5, driver1).0 == ReturnTypeError <==> !Returnable(kind, m[CacheId(md5, text)].0)
  {
  }

  /**
   * A miss (no item, or a falsy one) runs the statement once with caching off and
   * stores that result under the key with the TTL given; a null TTL takes this path.
   * A later fetch of the same text, when the stored result is truthy, is a hit that
   * returns it without running the statement, whatever the driver would now answer.
   * A result of the wrong shape fails the inner call's return type and is not stored.
   */
  lemma Miss(kind: FetchKind, ttl: CacheTtl, m: map<string, (Data, CacheTtl)>, text: string,
             md5: string -> string, driver: string -> Data, later: string -> Data)
    requires ttl != TtlFalse && ttl != TtlTrue
    requires !(CacheId(md5, text) in m && DataTruthy(m[CacheId(md5, text)].0))
    ensures var d := Coerce(kind, driver(text));
      var stored := m[CacheId(md5, text) := (d, ttl)];
      && (Returnable(kind, d) ==> FetchSpec(kind, ttl, Some(m), text, md5, driver) == (Result(d), Some(stored), 1))
      && (!Returnable(kind, d) ==> FetchSpec(kind, ttl, Some(m), text, md5, driver) == (ReturnTypeError, Some(m), 1))
      && (Returnable(kind, d) && DataTruthy(d) ==>
            FetchSpec(kind, ttl, Some(stored), text, md5, later) == (Result(d), Some(stored), 0))
  {
  }

  /** Every entry of the store fits the return type of `kind`. */
  predicate StoreFits(kind: FetchKind, m: map<string, (Data, CacheTtl)>) {
    forall id :: id in m ==> Returnable(kind, m[id].0)
  }

  /**
   * A store written only by one fetch method keeps fitting it, and that method
   * then fails on its return type only when the driver's own answer does not fit.
   */
  lemma SameKindFits(kind: FetchKind, ttl: CacheTtl, m: map<string, (Data, CacheTtl)>, text: string,
                     md5: string -> string, driver: string -> Data)
    requires StoreFits(kind, m)
    ensures var (o, after, _) := FetchSpec(kind, ttl, Some(m), text, md5, driver);
      && after.Some? && StoreFits(kind, after.value)
      && (o == ReturnTypeError ==> !Returnable(kind, Coerce(kind, driver(text))))
  {
  }

  /** What fetchObject caches, fetchAll cannot read: a truthy object is a TypeError there. */
  lemma ObjectReadByFetchAll(ttl: CacheTtl, m: map<string, (Data, CacheTtl)>, text: string,
                             md5: string -> string, driver: string -> Data, id: nat)
    requires ttl != TtlFalse && CacheId(md5, text) in m && m[CacheId(md5, text)].0 == Object(id)
    ensures FetchSpec(FetchAll, ttl, Some(m), text, md5, driver) == (ReturnTypeError, Some(m), 0)
    ensures FetchSpec(FetchObject, ttl, Some(m), text, md5, driver) == (Result(Object(id)), Some(m), 0)
  {
  }

  /**
   * The cache key depends on the rendered text only through its hash: two texts
   * share an entry exactly when their hashes agree, whatever values they bind.
   */
  lemma SameKeyIffSameHash(md5: string -> string, text1: string, text2: string)
    ensures CacheId(md5, text1) == CacheId(md5, text2) <==> md5(text1) == md5(text2)
  {
    if CacheId(md5, text1) == CacheId(md5, text2) {
      assert md5(text1) == CacheId(md5, text1)[|CachePrefix|..];
      assert md5(text2) == CacheId(md5, text2)[|CachePrefix|..];
    }
  }
}
