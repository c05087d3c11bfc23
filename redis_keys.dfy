/** The pure half of src/lib/redis.ts: the reconnect back-off, the named
    cache-key helpers, the query-derived key used by the cache middleware,
    and the glob patterns that `KEYS` understands. */
module RedisKeys {
  import opened Wrappers
  import opened Strings

  // ---------------------------------------------------------------------
  // Reconnect back-off (`retryStrategy`)
  // ---------------------------------------------------------------------

  const MaxRetryDelayMs: int := 2000
  const RetryStepMs: int := 50

  /** Delay before reconnect attempt number `times`: 50 ms per attempt,
      capped at two seconds. */
  function RetryDelay(times: nat): (delay: nat)
    ensures delay <= MaxRetryDelayMs
    ensures delay <= RetryStepMs * times
    ensures delay == RetryStepMs * times || delay == MaxRetryDelayMs
  {
    if times * RetryStepMs < MaxRetryDelayMs then times * RetryStepMs else MaxRetryDelayMs
  }

  lemma RetryDelayMonotone(a: nat, b: nat)
    requires a <= b
    ensures RetryDelay(a) <= RetryDelay(b)
  {
  }

  /** From the 40th attempt on the delay sits at the cap. */
  lemma RetryDelaySaturates(times: nat)
    requires times >= 40
    ensures RetryDelay(times) == MaxRetryDelayMs
  {
  }

  // ---------------------------------------------------------------------
  // Named key helpers (`cacheKey`)
  // ---------------------------------------------------------------------

  /** `${query || 'all'}`: an absent or empty query becomes `all`. */
  function QueryOrAll(query: Option<string>): (r: string)
    ensures r != []
    ensures query.Some? && query.value != [] ==> r == query.value
    ensures query.None? || query.value == [] ==> r == "all"
  {
    if query.Some? && query.value != [] then query.value else "all"
  }

  function RidesKey(query: Option<string>): (r: string)
    ensures StartsWith(r, "rides:") && r[6..] == QueryOrAll(query)
  {
    "rides:" + QueryOrAll(query)
  }

  function RideKey(id: string): (r: string)
    ensures StartsWith(r, "ride:") && r[5..] == id
  {
    "ride:" + id
  }

  function ProfilesKey(query: Option<string>): (r: string)
    ensures StartsWith(r, "profiles:") && r[9..] == QueryOrAll(query)
  {
    "profiles:" + QueryOrAll(query)
  }

  function ProfileKey(id: string): (r: string)
    ensures StartsWith(r, "profile:") && r[8..] == id
  {
    "profile:" + id
  }

  /** The list helpers cannot tell an absent query from an empty one. */
  lemma ListKeysIgnoreEmptyQuery()
    ensures RidesKey(None) == RidesKey(Some("")) == "rides:all"
    ensures ProfilesKey(None) == ProfilesKey(Some("")) == "profiles:all"
  {
  }

  /** An item key never collides with a list key, whatever the id or the
      query. */
  lemma ItemAndListKeysDisjoint(id: string, query: Option<string>)
    ensures RideKey(id) != RidesKey(query)
    ensures ProfileKey(id) != ProfilesKey(query)
  {
    assert RideKey(id)[4] == ':' && RidesKey(query)[4] == 's';
    assert ProfileKey(id)[7] == ':' && ProfilesKey(query)[7] == 's';
  }

  // ---------------------------------------------------------------------
  // Query-derived keys (`generateCacheKey`)
  // ---------------------------------------------------------------------

  /** A parsed query string: `(name, value)` pairs in the order
      `Object.keys` lists them, values already converted to text. */
  type Query = seq<(string, string)>

  /** Object property names are unique. */
  predicate DistinctNames(q: Query) {
    forall i, j :: 0 <= i < j < |q| ==> q[i].0 != q[j].0
  }

  predicate SortedByName(q: Query) {
    forall i, j :: 0 <= i < j < |q| ==> Less(q[i].0, q[j].0)
  }

  predicate NameAbsent(q: Query, name: string) {
    forall i :: 0 <= i < |q| ==> q[i].0 != name
  }

  function InsertByName(p: (string, string), q: Query): (r: Query)
    requires SortedByName(q) && NameAbsent(q, p.0)
    ensures SortedByName(r)
    ensures multiset(r) == multiset(q) + multiset{p}
    ensures |r| == |q| + 1
    ensures r[0] == p || (|q| > 0 && r[0] == q[0])
  {
    if q == [] then [p]
    else if Less(p.0, q[0].0) then
      ConsSorted(p, q);
      [p] + q
    else
      LessTotal(p.0, q[0].0);
      var rest := InsertByName(p, q[1..]);
      assert q == [q[0]] + q[1..];
      ConsSorted(q[0], rest);
      [q[0]] + rest
  }

  /** A name before the first of a sorted list keeps it sorted. */
  lemma ConsSorted(x: (string, string), q: Query)
    requires SortedByName(q) && (|q| > 0 ==> Less(x.0, q[0].0))
    ensures SortedByName([x] + q)
  {
    var r := [x] + q;
    forall i, j | 0 <= i < j < |r| ensures Less(r[i].0, r[j].0) {
      if i == 0 && j > 1 {
        LessTransitive(x.0, q[0].0, q[j - 1].0);
      }
    }
  }

  /** `Object.keys(query).sort()`, carrying each name's value along. */
  function SortByName(q: Query): (r: Query)
    requires DistinctNames(q)
    ensures SortedByName(r)
    ensures multiset(r) == multiset(q)
    ensures |r| == |q|
  {
    if q == [] then []
    else
      assert q == [q[0]] + q[1..];
      var rest := SortByName(q[1..]);
      forall i | 0 <= i < |rest| ensures rest[i].0 != q[0].0 {
        assert rest[i] in multiset(q[1..]);
        var k :| 0 <= k < |q[1..]| && q[1..][k] == rest[i];
      }
      InsertByName(q[0], rest)
  }

  /** `.map(key => `${key}=${query[key]}`).join('&')` */
  function JoinPairs(q: Query): (r: string)
    ensures r == "" <==> q == []
    // Unless names and values hold them, there is one `=` per pair and one
    // `&` between each two pairs.
    ensures Free(q, '=') ==> multiset(r)['='] == |q|
    ensures Free(q, '&') && q != [] ==> multiset(r)['&'] == |q| - 1
  {
    if q == [] then ""
    else
      assert Free(q, '=') ==> Free(q[1..], '=');
      assert Free(q, '&') ==> Free(q[1..], '&');
      if |q| == 1 then q[0].0 + "=" + q[0].1
      else q[0].0 + "=" + q[0].1 + "&" + JoinPairs(q[1..])
  }

  /** No name or value of `q` holds `c`. */
  predicate Free(q: Query, c: char) {
    forall i :: 0 <= i < |q| ==> c !in q[i].0 && c !in q[i].1
  }

  /** The key under which the cache middleware stores a GET response. */
  function GenerateCacheKey(path: string, query: Query): (key: string)
    requires DistinctNames(query)
    ensures query == [] ==> key == path + ":all"
    ensures query != [] ==> key == path + ":" + JoinPairs(SortByName(query))
  {
    var queryString := JoinPairs(SortByName(query));
    if queryString != [] then path + ":" + queryString
    else path + ":all"
  }

  /** The first pair of a strictly name-ordered query is its least one, so
      two such queries holding the same pairs start alike. */
  lemma SortedByNameSameHead(a: Query, b: Query)
    requires SortedByName(a) && SortedByName(b)
    requires multiset(a) == multiset(b) && a != [] && b != []
    ensures a[0] == b[0]
  {
    assert a[0] in multiset(b) && b[0] in multiset(a);
    var k :| 0 <= k < |b| && b[k] == a[0];
    var m :| 0 <= m < |a| && a[m] == b[0];
    if a[0] != b[0] {
      assert Less(b[0].0, a[0].0) && Less(a[0].0, b[0].0);
      LessAsymmetric(a[0].0, b[0].0);
      assert false;
    }
  }

  /** Two strictly name-ordered queries holding the same pairs are the same
      sequence. */
  lemma {:induction false} SortedByNameUnique(a: Query, b: Query)
    requires SortedByName(a) && SortedByName(b)
    requires multiset(a) == multiset(b)
    ensures a == b
  {
    assert |a| == |multiset(a)| == |multiset(b)| == |b|;
    if a != [] {
      SortedByNameSameHead(a, b);
      assert a == [a[0]] + a[1..] && b == [b[0]] + b[1..];
      assert multiset(a[1..]) == multiset(a) - multiset{a[0]};
      assert multiset(b[1..]) == multiset(b) - multiset{b[0]};
      SortedByNameUnique(a[1..], b[1..]);
    }
  }

  /** The key does not depend on the order in which the query parameters
      were written: any rearrangement of the same pairs gives the same key. */
  lemma CacheKeyOrderIndependent(path: string, q1: Query, q2: Query)
    requires DistinctNames(q1) && DistinctNames(q2)
    requires multiset(q1) == multiset(q2)
    ensures GenerateCacheKey(path, q1) == GenerateCacheKey(path, q2)
  {
    SortedByNameUnique(SortByName(q1), SortByName(q2));
    assert |q1| == |multiset(q1)| == |multiset(q2)| == |q2|;
  }

  // ---------------------------------------------------------------------
  // Glob patterns understood by `KEYS`
  // ---------------------------------------------------------------------

  /** Redis glob matching restricted to `*` (any run) and `?` (any one
      character); every other character stands for itself. */
  predicate GlobMatch(pattern: string, s: string): (m: bool)
    // Without `*`, a match has exactly the pattern's length.
    ensures m && '*' !in pattern ==> |s| == |pattern|
    decreases |pattern| + |s|
  {
    if |pattern| == 0 then |s| == 0
    else if pattern[0] == '*' then
      GlobMatch(pattern[1..], s) || (|s| > 0 && GlobMatch(pattern, s[1..]))
    else if |s| == 0 then false
    else if pattern[0] == '?' then GlobMatch(pattern[1..], s[1..])
    else pattern[0] == s[0] && GlobMatch(pattern[1..], s[1..])
  }

  predicate Literal(pattern: string) {
    forall i :: 0 <= i < |pattern| ==> pattern[i] != '*' && pattern[i] != '?'
  }

  lemma {:induction false} StarMatchesAll(s: string)
    ensures GlobMatch("*", s)
  {
    if |s| > 0 {
      StarMatchesAll(s[1..]);
    }
  }

  /** `prefix*` matches exactly the keys that start with `prefix`. */
  lemma {:induction false} PrefixPatternMatches(prefix: string, s: string)
    requires Literal(prefix)
    ensures GlobMatch(prefix + "*", s) <==> StartsWith(s, prefix)
  {
    if prefix == [] {
      assert prefix + "*" == "*";
      StarMatchesAll(s);
    } else {
      assert (prefix + "*")[1..] == prefix[1..] + "*";
      if |s| > 0 {
        PrefixPatternMatches(prefix[1..], s[1..]);
        if StartsWith(s, prefix) {
          assert s[1..][..|prefix| - 1] == prefix[1..];
        }
        if prefix[0] == s[0] && StartsWith(s[1..], prefix[1..]) {
          assert s[..|prefix|] == [s[0]] + s[1..][..|prefix| - 1];
        }
      }
    }
  }

  /** A pattern without wildcards matches only itself. */
  lemma {:induction false} LiteralPatternMatchesItself(pattern: string, s: string)
    requires Literal(pattern)
    ensures GlobMatch(pattern, s) <==> s == pattern
  {
    if |pattern| > 0 && |s| > 0 {
      LiteralPatternMatchesItself(pattern[1..], s[1..]);
      if s[0] == pattern[0] && s[1..] == pattern[1..] {
        assert s == [s[0]] + s[1..] && pattern == [pattern[0]] + pattern[1..];
      }
    }
  }

  /** Keys built from an Express path (which always starts with `/`) never
      fall under the `rides:*` or `profiles:*` namespaces of the named
      helpers, so invalidating those namespaces cannot reach them. */
  lemma MiddlewareKeysOutsideHelperNamespaces(path: string, query: Query)
    requires DistinctNames(query)
    requires StartsWith(path, "/")
    ensures !GlobMatch("rides:*", GenerateCacheKey(path, query))
    ensures !GlobMatch("profiles:*", GenerateCacheKey(path, query))
  {
    KeyStartsWithPath(path, query);
    SlashKeysOutside(GenerateCacheKey(path, query));
  }

  lemma SlashKeysOutside(key: string)
    requires |key| > 0 && key[0] == '/'
    ensures !GlobMatch("rides:*", key) && !GlobMatch("profiles:*", key)
  {
    OtherFirstCharOutside("rides:", key);
    OtherFirstCharOutside("profiles:", key);
  }

  lemma KeyStartsWithPath(path: string, query: Query)
    requires DistinctNames(query) && |path| > 0
    ensures var key := GenerateCacheKey(path, query);
      |key| > 0 && key[0] == path[0]
  {
  }

  /** A key whose first character differs from a literal prefix's is not
      under that prefix's namespace. */
  lemma OtherFirstCharOutside(prefix: string, key: string)
    requires Literal(prefix) && |prefix| > 0 && |key| > 0 && key[0] != prefix[0]
    ensures !GlobMatch(prefix + "*", key)
  {
    PrefixPatternMatches(prefix, key);
  }

  /** Invalidating the list namespace never evicts an item key, and the other
      way round. */
  lemma ListPatternSparesItemKeys(id: string, query: Option<string>)
    ensures GlobMatch("rides:*", RidesKey(query)) && !GlobMatch("rides:*", RideKey(id))
    ensures GlobMatch("ride:*", RideKey(id)) && !GlobMatch("ride:*", RidesKey(query))
    ensures GlobMatch("profiles:*", ProfilesKey(query)) && !GlobMatch("profiles:*", ProfileKey(id))
    ensures GlobMatch("profile:*", ProfileKey(id)) && !GlobMatch("profile:*", ProfilesKey(query))
  {
    RideNamespacesApart(id, query);
    ProfileNamespacesApart(id, query);
  }

  lemma RideNamespacesApart(id: string, query: Option<string>)
    ensures GlobMatch("rides:*", RidesKey(query)) && !GlobMatch("rides:*", RideKey(id))
    ensures GlobMatch("ride:*", RideKey(id)) && !GlobMatch("ride:*", RidesKey(query))
  {
    assert "rides:" + "*" == "rides:*" && "ride:" + "*" == "ride:*";
    assert RideKey(id)[4] == ':' && RidesKey(query)[4] == 's';
    PrefixPatternMatches("rides:", RidesKey(query));
    PrefixPatternMatches("rides:", RideKey(id));
    PrefixPatternMatches("ride:", RideKey(id));
    PrefixPatternMatches("ride:", RidesKey(query));
  }

  lemma ProfileNamespacesApart(id: string, query: Option<string>)
    ensures GlobMatch("profiles:*", ProfilesKey(query)) && !GlobMatch("profiles:*", ProfileKey(id))
    ensures GlobMatch("profile:*", ProfileKey(id)) && !GlobMatch("profile:*", ProfilesKey(query))
  {
    assert "profiles:" + "*" == "profiles:*" && "profile:" + "*" == "profile:*";
    assert ProfileKey(id)[7] == ':' && ProfilesKey(query)[7] == 's';
    PrefixPatternMatches("profiles:", ProfilesKey(query));
    PrefixPatternMatches("profiles:", ProfileKey(id));
    PrefixPatternMatches("profile:", ProfileKey(id));
    PrefixPatternMatches("profile:", ProfilesKey(query));
  }
}
