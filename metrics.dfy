/** src/middleware/metrics.middleware.ts: `metricsMiddleware` observes one
    duration per finished response in the `rutafem_http_request_duration_seconds`
    histogram, labelled by method, route and status code. The histogram is
    kept as the list of its observations; bucket counts are derived from it.
    Durations are whole milliseconds: the source divides by 1000 and compares
    with bounds in seconds, which selects the same buckets as comparing the
    milliseconds with the bounds times 1000. */
module Metrics {
  import opened Wrappers

  /** The bucket upper bounds, 0.01 s to 10 s, in milliseconds. */
  const BucketBoundsMs: seq<int> := [10, 50, 100, 500, 1000, 2000, 5000, 10000]

  /** The eight bounds are strictly increasing. */
  lemma BucketBoundsIncreasing()
    ensures |BucketBoundsMs| == 8
    ensures forall i, j :: 0 <= i < j < |BucketBoundsMs| ==> BucketBoundsMs[i] < BucketBoundsMs[j]
  {
  }

  /** The three label values of one observation. */
  datatype Labels = Labels(httpMethod: string, route: string, statusCode: string)

  datatype Sample = Sample(labels: Labels, durationMs: int)

  // ---------------------------------------------------------------------
  // Label derivation

  /** `path.split('?')[0]`: everything before the first `?`. */
  function BeforeQuery(path: string): (p: string)
    ensures p <= path
    ensures '?' !in p
    ensures |p| < |path| ==> path[|p|] == '?'
  {
    if path == [] || path[0] == '?' then [] else [path[0]] + BeforeQuery(path[1..])
  }

  /** The route label: the mount point followed by the matched route pattern
      when Express matched a route (`req.route`), the raw path up to its
      query string otherwise. */
  function RouteLabel(matchedRoute: Option<string>, baseUrl: string, path: string): (route: string)
    ensures matchedRoute.Some? ==> route == baseUrl + matchedRoute.value
    ensures matchedRoute.None? ==> route <= path && '?' !in route
    ensures matchedRoute.None? && '?' !in path ==> route == path
  {
    match matchedRoute
    case Some(pattern) => baseUrl + pattern
    case None => BeforeQuery(path)
  }

  function DigitChar(d: nat): char
    requires d < 10
  {
    "0123456789"[d]
  }

  predicate IsDigit(c: char) {
    '0' <= c <= '9'
  }

  function DigitValue(c: char): nat
    requires IsDigit(c)
  {
    c as nat - '0' as nat
  }

  /** `statusCode.toString()`: decimal digits without leading zeros. */
  function DecimalText(n: nat): (s: string)
    ensures |s| >= 1
    ensures forall i :: 0 <= i < |s| ==> IsDigit(s[i])
    ensures |s| > 1 ==> s[0] != '0'
    decreases n
  {
    if n < 10 then [DigitChar(n)] else DecimalText(n / 10) + [DigitChar(n % 10)]
  }

  /** Reading a string of decimal digits back as a number. */
  function ParseDecimal(s: string): nat
    requires forall i :: 0 <= i < |s| ==> IsDigit(s[i])
    decreases |s|
  {
    if s == [] then 0 else ParseDecimal(s[..|s| - 1]) * 10 + DigitValue(s[|s| - 1])
  }

  /** The status label determines the status: reading it back gives the
      number. */
  lemma {:induction false} DecimalTextRoundTrip(n: nat)
    ensures ParseDecimal(DecimalText(n)) == n
    decreases n
  {
    var s := DecimalText(n);
    if n >= 10 {
      DecimalTextRoundTrip(n / 10);
      assert s[..|s| - 1] == DecimalText(n / 10);
    }
  }

  /** Distinct statuses get distinct labels. */
  lemma DecimalTextInjective(m: nat, n: nat)
    requires DecimalText(m) == DecimalText(n)
    ensures m == n
  {
    DecimalTextRoundTrip(m);
    DecimalTextRoundTrip(n);
  }

  // ---------------------------------------------------------------------
  // The histogram

  /** Observations of one label combination. */
  function SeriesCount(samples: seq<Sample>, labels: Labels): nat
  {
    if samples == [] then 0
    else SeriesCount(samples[..|samples| - 1], labels)
         + (if samples[|samples| - 1].labels == labels then 1 else 0)
  }

  /** The cumulative bucket `le = boundMs` of one label combination: the
      observations no longer than the bound. */
  function BucketCount(samples: seq<Sample>, labels: Labels, boundMs: int): (c: nat)
    ensures c <= SeriesCount(samples, labels)
  {
    if samples == [] then 0
    else BucketCount(samples[..|samples| - 1], labels, boundMs)
         + (if samples[|samples| - 1].labels == labels && samples[|samples| - 1].durationMs <= boundMs
            then 1 else 0)
  }

  /** Buckets are cumulative: a larger bound counts at least as many
      observations. */
  lemma {:induction false} BucketCountMonotone(samples: seq<Sample>, labels: Labels, lo: int, hi: int)
    requires lo <= hi
    ensures BucketCount(samples, labels, lo) <= BucketCount(samples, labels, hi)
    decreases |samples|
  {
    if samples != [] {
      BucketCountMonotone(samples[..|samples| - 1], labels, lo, hi);
    }
  }

  class Histogram {
    const boundsMs: seq<int>
    var samples: seq<Sample>

    constructor ()
      ensures boundsMs == BucketBoundsMs && samples == []
    {
      boundsMs := BucketBoundsMs;
      samples := [];
    }

    /** `histogram.labels(...).observe(duration)` */
    method Observe(s: Sample)
      modifies this
      ensures samples == old(samples) + [s]
    {
      samples := samples + [s];
    }
  }

  /** The `finish` listener `metricsMiddleware` registers: one observation,
      labelled with the method, the route label and the status as decimal
      text, of the time elapsed since `start`. `/metrics` itself passes
      through here like any other request. */
  method ObserveFinished(h: Histogram, httpMethod: string, matchedRoute: Option<string>,
                         baseUrl: string, path: string, status: nat, start: int, finish: int)
    modifies h
    ensures h.samples == old(h.samples)
              + [Sample(Labels(httpMethod, RouteLabel(matchedRoute, baseUrl, path), DecimalText(status)),
                        finish - start)]
  {
    var route := RouteLabel(matchedRoute, baseUrl, path);
    h.Observe(Sample(Labels(httpMethod, route, DecimalText(status)), finish - start));
  }

  /** One observation adds exactly one to its own series, and to every
      bucket whose bound it does not exceed, and nothing to other series. */
  lemma ObservationCounts(samples: seq<Sample>, s: Sample, labels: Labels, boundMs: int)
    ensures SeriesCount(samples + [s], labels)
            == SeriesCount(samples, labels) + (if s.labels == labels then 1 else 0)
    ensures BucketCount(samples + [s], labels, boundMs)
            == BucketCount(samples, labels, boundMs)
               + (if s.labels == labels && s.durationMs <= boundMs then 1 else 0)
  {
    assert (samples + [s])[..|samples + [s]| - 1] == samples;
  }
}
