/** The Redis instance shared by src/lib/redis.ts and the cache middleware,
    reduced to the four commands the code issues (GET, SETEX, KEYS, DEL), and
    `invalidateCache`, the one helper that mutates it. Whether the server
    answers a command is a parameter of that command (`up`); the clock is a
    parameter too (milliseconds). */
module RedisStore {
  import opened Wrappers
  import opened RedisKeys

  /** A stored string and the instant (ms) after which it has expired. */
  datatype Entry = Entry(value: string, expiresAt: int)

  /** Commands sent to the server, in the order they were sent. */
  datatype Command =
    | GetCmd(key: string)
    | SetExCmd(key: string, ttlSeconds: int, value: string)
    | KeysCmd(pattern: string)
    | DelCmd(keys: seq<string>)

  datatype StoreError = Unreachable | InvalidExpireTime

  /** Redis treats a key as expired once the clock is past its deadline. */
  predicate Live(e: Entry, now: int) {
    now <= e.expiresAt
  }

  /** What GET answers for `key` at time `now`. */
  function Lookup(entries: map<string, Entry>, key: string, now: int): (r: Option<string>)
    ensures r.Some? <==> key in entries && Live(entries[key], now)
    ensures r.Some? ==> r.value == entries[key].value
  {
    if key in entries && Live(entries[key], now) then Some(entries[key].value) else None
  }

  /** The keys KEYS returns for `pattern` at time `now`. */
  function LiveMatching(entries: map<string, Entry>, pattern: string, now: int): (ks: set<string>)
    ensures forall k :: k in ks <==> k in entries && GlobMatch(pattern, k) && Live(entries[k], now)
  {
    set k | k in entries && GlobMatch(pattern, k) && Live(entries[k], now)
  }

  /** A value written with SETEX is read back until its TTL has elapsed and
      never afterwards. */
  lemma SetExThenGet(entries: map<string, Entry>, key: string, value: string,
                     ttlSeconds: int, setAt: int, readAt: int)
    ensures Lookup(entries[key := Entry(value, setAt + ttlSeconds * 1000)], key, readAt) ==
            (if readAt <= setAt + ttlSeconds * 1000 then Some(value) else None)
  {
  }

  /** Writing one key leaves what GET answers for every other key alone. */
  lemma SetExOtherKeys(entries: map<string, Entry>, key: string, other: string,
                       e: Entry, now: int)
    requires other != key
    ensures Lookup(entries[key := e], other, now) == Lookup(entries, other, now)
  {
  }

  function KeySet(keys: seq<string>): (ks: set<string>)
    ensures forall k :: k in ks <==> k in keys
  {
    set k | k in keys
  }

  class Store {
    var entries: map<string, Entry>
    var issued: seq<Command>

    constructor ()
      ensures entries == map[] && issued == []
    {
      entries := map[];
      issued := [];
    }

    method Get(key: string, now: int, up: bool) returns (r: Result<Option<string>, StoreError>)
      modifies this
      ensures issued == old(issued) + [GetCmd(key)]
      ensures entries == old(entries)
      ensures up ==> r == Ok(Lookup(entries, key, now))
      ensures !up ==> r == Err(Unreachable)
    {
      issued := issued + [GetCmd(key)];
      if up {
        r := Ok(Lookup(entries, key, now));
      } else {
        r := Err(Unreachable);
      }
    }

    /** SETEX refuses a TTL that is not positive. */
    method SetEx(key: string, ttlSeconds: int, value: string, now: int, up: bool)
      returns (r: Result<(), StoreError>)
      modifies this
      ensures issued == old(issued) + [SetExCmd(key, ttlSeconds, value)]
      ensures r.Ok? <==> up && ttlSeconds > 0
      ensures r.Ok? ==> entries == old(entries)[key := Entry(value, now + ttlSeconds * 1000)]
      ensures r.Err? ==> entries == old(entries)
    {
      issued := issued + [SetExCmd(key, ttlSeconds, value)];
      if !up {
        r := Err(Unreachable);
      } else if ttlSeconds <= 0 {
        r := Err(InvalidExpireTime);
      } else {
        entries := entries[key := Entry(value, now + ttlSeconds * 1000)];
        r := Ok(());
      }
    }

    /** KEYS: every live key matching `pattern`, each once, in no particular
        order. */
    method Keys(pattern: string, now: int, up: bool) returns (r: Result<seq<string>, StoreError>)
      modifies this
      ensures issued == old(issued) + [KeysCmd(pattern)]
      ensures entries == old(entries)
      ensures up <==> r.Ok?
      ensures r.Ok? ==> KeySet(r.value) == LiveMatching(entries, pattern, now)
      ensures r.Ok? ==> |r.value| == |LiveMatching(entries, pattern, now)|
    {
      issued := issued + [KeysCmd(pattern)];
      if !up {
        return Err(Unreachable);
      }
      var todo := LiveMatching(entries, pattern, now);
      var found: seq<string> := [];
      while todo != {}
        invariant KeySet(found) + todo == LiveMatching(entries, pattern, now)
        invariant KeySet(found) !! todo
        invariant |found| + |todo| == |LiveMatching(entries, pattern, now)|
        invariant |KeySet(found)| == |found|
        decreases |todo|
      {
        var k :| k in todo;
        assert k !in KeySet(found);
        assert KeySet(found + [k]) == KeySet(found) + {k};
        found := found + [k];
        todo := todo - {k};
      }
      r := Ok(found);
    }

    /** DEL: removes the listed keys and answers how many existed. */
    method Del(keys: seq<string>, up: bool) returns (r: Result<nat, StoreError>)
      modifies this
      ensures issued == old(issued) + [DelCmd(keys)]
      ensures up <==> r.Ok?
      ensures r.Ok? ==> entries == old(entries) - KeySet(keys)
      ensures r.Ok? ==> r.value == |old(entries).Keys * KeySet(keys)|
      ensures r.Err? ==> entries == old(entries)
    {
      issued := issued + [DelCmd(keys)];
      if !up {
        return Err(Unreachable);
      }
      var gone := KeySet(keys);
      r := Ok(|entries.Keys * gone|);
      entries := entries - gone;
    }
  }

  /** What `invalidateCache` reports through the logger. */
  datatype InvalidationLog =
    | Invalidated(pattern: string, count: nat)
    | InvalidationFailed(pattern: string)
    | NothingMatched

  /** `invalidateCache(pattern)`: KEYS, then one DEL of everything it listed,
      skipped when nothing matched. A failure of either command is logged and
      swallowed: the method has no error result. */
  method InvalidateCache(store: Store, pattern: string, now: int, keysUp: bool, delUp: bool)
    returns (log: InvalidationLog)
    modifies store
    ensures var matching := LiveMatching(old(store.entries), pattern, now);
      && (keysUp && delUp ==> store.entries == old(store.entries) - matching)
      && (!(keysUp && delUp) ==> store.entries == old(store.entries))
      && (!keysUp ==> store.issued == old(store.issued) + [KeysCmd(pattern)]
                      && log == InvalidationFailed(pattern))
      && (keysUp && matching == {} ==> store.issued == old(store.issued) + [KeysCmd(pattern)]
                                        && log == NothingMatched)
      && (keysUp && matching != {} ==>
            |store.issued| == |old(store.issued)| + 2
            && store.issued[..|old(store.issued)| + 1] == old(store.issued) + [KeysCmd(pattern)]
            && store.issued[|old(store.issued)| + 1].DelCmd?
            && KeySet(store.issued[|old(store.issued)| + 1].keys) == matching
            && log == (if delUp then Invalidated(pattern, |matching|) else InvalidationFailed(pattern)))
  {
    var listed := store.Keys(pattern, now, keysUp);
    if listed.Err? {
      return InvalidationFailed(pattern);
    }
    var keys := listed.value;
    if |keys| > 0 {
      var deleted := store.Del(keys, delUp);
      if deleted.Ok? {
        log := Invalidated(pattern, |keys|);
      } else {
        log := InvalidationFailed(pattern);
      }
    } else {
      log := NothingMatched;
    }
  }

  /** After a successful invalidation no key matching the pattern can be
      read any more, and every other key reads as before. */
  lemma InvalidatedKeysMiss(entries: map<string, Entry>, pattern: string, now: int, key: string)
    ensures GlobMatch(pattern, key) ==>
              Lookup(entries - LiveMatching(entries, pattern, now), key, now).None?
    ensures !GlobMatch(pattern, key) ==>
              Lookup(entries - LiveMatching(entries, pattern, now), key, now) == Lookup(entries, key, now)
  {
  }
}
