/** src/middleware/cache.middleware.ts: `cacheMiddleware(ttl)`, a cache-aside
    layer for GET requests over the shared Redis store. The downstream
    handler is a function from the request to the reply it would send with
    `res.json`; bodies are carried as their JSON text, so `JSON.stringify`
    and `JSON.parse` are the identity. */
module CacheMiddleware {
  import opened Wrappers
  import opened RedisKeys
  import opened RedisStore

  const DefaultTtlSeconds: int := 60

  /** The middleware built by `cacheMiddleware(ttl)`: only the TTL is
      configured. */
  datatype CacheConfig = CacheConfig(ttlSeconds: int)

  function MakeCacheConfig(ttl: Option<int>): (cfg: CacheConfig)
    ensures ttl.None? ==> cfg.ttlSeconds == DefaultTtlSeconds
    ensures ttl.Some? ==> cfg.ttlSeconds == ttl.value
  {
    CacheConfig(ttl.GetOr(DefaultTtlSeconds))
  }

  /** The parts of an Express request the middleware looks at; `path` is
      relative to the router the middleware is mounted on. */
  datatype Request = Request(httpMethod: string, path: string, query: Query)

  /** A reply sent through `res.json`: its status and its JSON body text. */
  datatype Reply = Reply(status: int, body: string)

  predicate IsSuccess(status: int) {
    200 <= status < 300
  }

  /** The key a request is cached under. */
  function KeyFor(req: Request): string
    requires DistinctNames(req.query)
  {
    GenerateCacheKey(req.path, req.query)
  }

  /** One pass through the middleware and, when it hands over, the handler.
      `lookupUp` and `storeUp` say whether GET and SETEX reach the server;
      `now` is when the request arrives and `repliedAt` when the handler
      calls `res.json`. `handlerRan` says whether the handler was invoked. */
  method Handle(cfg: CacheConfig, store: Store, req: Request, handler: Request -> Reply,
                now: int, repliedAt: int, lookupUp: bool, storeUp: bool)
    returns (reply: Reply, handlerRan: bool)
    requires DistinctNames(req.query)
    modifies store
    // Requests other than GET pass straight through; the store is untouched.
    ensures req.httpMethod != "GET" ==>
              handlerRan && reply == handler(req)
              && store.entries == old(store.entries) && store.issued == old(store.issued)
    // A GET always starts with one lookup under the request's key.
    ensures req.httpMethod == "GET" ==>
              |store.issued| >= |old(store.issued)| + 1
              && store.issued[..|old(store.issued)| + 1] == old(store.issued) + [GetCmd(KeyFor(req))]
    // Hit: the stored body is answered with status 200 and the handler never runs.
    ensures req.httpMethod == "GET" && lookupUp
            && Lookup(old(store.entries), KeyFor(req), now).Some?
            && Lookup(old(store.entries), KeyFor(req), now).value != "" ==>
              !handlerRan && reply == Reply(200, Lookup(old(store.entries), KeyFor(req), now).value)
              && store.entries == old(store.entries)
              && store.issued == old(store.issued) + [GetCmd(KeyFor(req))]
    // Lookup failure: fail open, the handler answers and nothing is written.
    ensures req.httpMethod == "GET" && !lookupUp ==>
              handlerRan && reply == handler(req)
              && store.entries == old(store.entries)
              && store.issued == old(store.issued) + [GetCmd(KeyFor(req))]
    // Miss: the handler answers; only a 2xx body is written back, with the TTL.
    ensures req.httpMethod == "GET" && lookupUp
            && (Lookup(old(store.entries), KeyFor(req), now).None?
                || Lookup(old(store.entries), KeyFor(req), now).value == "") ==>
              handlerRan && reply == handler(req)
              && (IsSuccess(reply.status) ==>
                    store.issued == old(store.issued)
                                    + [GetCmd(KeyFor(req)), SetExCmd(KeyFor(req), cfg.ttlSeconds, reply.body)]
                    && store.entries == (if storeUp && cfg.ttlSeconds > 0
                                         then old(store.entries)[KeyFor(req) := Entry(reply.body, repliedAt + cfg.ttlSeconds * 1000)]
                                         else old(store.entries)))
              && (!IsSuccess(reply.status) ==>
                    store.issued == old(store.issued) + [GetCmd(KeyFor(req))]
                    && store.entries == old(store.entries))
  {
    if req.httpMethod != "GET" {
      reply := handler(req);
      handlerRan := true;
      return;
    }
    var key := KeyFor(req);
    var cached := store.Get(key, now, lookupUp);
    if cached.Err? {
      // Cache middleware error - continuing without cache.
      reply := handler(req);
      handlerRan := true;
      return;
    }
    if cached.value.Some? && cached.value.value != "" {
      reply := Reply(200, cached.value.value);
      handlerRan := false;
      return;
    }
    // Miss: the wrapped res.json sees the handler's reply.
    reply := handler(req);
    handlerRan := true;
    if IsSuccess(reply.status) {
      // Fire and forget: a failed write is only logged; the reply is unchanged.
      var written := store.SetEx(key, cfg.ttlSeconds, reply.body, repliedAt, storeUp);
    }
  }

  /** Two identical GETs in a row within the TTL: the first misses and
      stores the handler's 2xx body, the second answers that body from the
      store without running the handler. */
  method MissThenHit(cfg: CacheConfig, store: Store, req: Request, handler: Request -> Reply,
                     t1: int, t1Reply: int, t2: int)
    returns (first: Reply, second: Reply, secondRan: bool)
    requires DistinctNames(req.query) && req.httpMethod == "GET"
    requires Lookup(store.entries, KeyFor(req), t1).None?
    requires IsSuccess(handler(req).status) && handler(req).body != ""
    requires cfg.ttlSeconds > 0 && t2 <= t1Reply + cfg.ttlSeconds * 1000
    modifies store
    ensures first == handler(req)
    ensures !secondRan && second == Reply(200, first.body)
  {
    var ran;
    first, ran := Handle(cfg, store, req, handler, t1, t1Reply, true, true);
    second, secondRan := Handle(cfg, store, req, handler, t2, t2, true, true);
  }

  /** Once the TTL has elapsed the same GET misses again and reaches the
      handler. */
  method MissAfterExpiry(cfg: CacheConfig, store: Store, req: Request, handler: Request -> Reply,
                         t1: int, t1Reply: int, t2: int)
    returns (first: Reply, second: Reply, secondRan: bool)
    requires DistinctNames(req.query) && req.httpMethod == "GET"
    requires Lookup(store.entries, KeyFor(req), t1).None?
    requires IsSuccess(handler(req).status)
    requires cfg.ttlSeconds > 0 && t2 > t1Reply + cfg.ttlSeconds * 1000
    modifies store
    ensures first == handler(req)
    ensures secondRan && second == handler(req)
  {
    var ran;
    first, ran := Handle(cfg, store, req, handler, t1, t1Reply, true, true);
    second, secondRan := Handle(cfg, store, req, handler, t2, t2, true, true);
  }

  /** After a successful invalidation covering a request's key, that request
      misses and reaches the handler, even if it was a hit before. */
  method MissAfterInvalidation(cfg: CacheConfig, store: Store, req: Request, handler: Request -> Reply,
                               pattern: string, now: int)
    returns (reply: Reply, ran: bool)
    requires DistinctNames(req.query) && req.httpMethod == "GET"
    requires GlobMatch(pattern, KeyFor(req))
    modifies store
    ensures ran && reply == handler(req)
  {
    var log := InvalidateCache(store, pattern, now, true, true);
    InvalidatedKeysMiss(old(store.entries), pattern, now, KeyFor(req));
    reply, ran := Handle(cfg, store, req, handler, now, now, true, true);
  }
}
