/** src/schemas/pagination.schema.ts: `paginationSchema`, `page` and `limit`
    read from the query string through `z.coerce.number()`, with defaults.
    `Number(text)` is a parameter; `None` stands for `NaN`. */
module PaginationSchema {
  import opened Wrappers
  import opened Validation
  import opened Http

  const DefaultPage: int := 1
  const DefaultLimit: int := 50
  /** `limit = -1` asks for every row. */
  const AllRows: int := -1

  datatype Pagination = Pagination(page: int, limit: int)

  /** `z.coerce.number().int().min(least).default(default)` on one query
      parameter. An absent parameter yields the default as it is, without
      the checks. */
  function CoerceInt(toNumber: string -> Option<real>, raw: Option<string>, default: int, least: int)
    : (r: Option<int>)
    ensures raw.None? ==> r == Some(default)
    ensures raw.Some? ==>
              (r.Some? <==> toNumber(raw.value).Some? && SafeInteger(toNumber(raw.value).value)
                            && toNumber(raw.value).value >= least as real)
    ensures raw.Some? && r.Some? ==> r.value as real == toNumber(raw.value).value
    ensures raw.Some? && r.Some? ==> r.value <= MaxSafeInteger
  {
    if raw.None? then Some(default)
    else
      var x := toNumber(raw.value);
      if x.Some? && SafeInteger(x.value) && x.value >= least as real then Some(x.value.Floor) else None
  }

  function QueryParam(query: map<string, string>, name: string): Option<string> {
    if name in query then Some(query[name]) else None
  }

  /** `paginationSchema.parse(req.query)` */
  function ParsePagination(toNumber: string -> Option<real>, query: map<string, string>)
    : (r: Result<Pagination, AppError>)
    ensures r.Ok? ==> 1 <= r.value.page <= MaxSafeInteger && AllRows <= r.value.limit <= MaxSafeInteger
    ensures r.Ok? && "page" !in query ==> r.value.page == DefaultPage
    ensures r.Ok? && "limit" !in query ==> r.value.limit == DefaultLimit
    ensures r.Ok? && "page" in query ==> toNumber(query["page"]) == Some(r.value.page as real)
    ensures r.Ok? && "limit" in query ==> toNumber(query["limit"]) == Some(r.value.limit as real)
    ensures r.Ok? <==> CoerceInt(toNumber, QueryParam(query, "page"), DefaultPage, 1).Some?
                       && CoerceInt(toNumber, QueryParam(query, "limit"), DefaultLimit, AllRows).Some?
    ensures r.Err? ==> r.error.ValidationError?
    ensures r.Err? ==> ("page" in r.error.issues
                        <==> CoerceInt(toNumber, QueryParam(query, "page"), DefaultPage, 1).None?)
    ensures r.Err? ==> ("limit" in r.error.issues
                        <==> CoerceInt(toNumber, QueryParam(query, "limit"), DefaultLimit, AllRows).None?)
  {
    var page := CoerceInt(toNumber, QueryParam(query, "page"), DefaultPage, 1);
    var limit := CoerceInt(toNumber, QueryParam(query, "limit"), DefaultLimit, AllRows);
    if page.Some? && limit.Some? then Ok(Pagination(page.value, limit.value))
    else Err(ValidationError((if page.None? then ["page"] else [])
                             + (if limit.None? then ["limit"] else [])))
  }

  /** With no query at all the defaults apply. */
  lemma DefaultsApply(toNumber: string -> Option<real>)
    ensures ParsePagination(toNumber, map[]) == Ok(Pagination(DefaultPage, DefaultLimit))
  {
  }

  /** Both `limit = -1` and `limit = 0` pass the schema; a page below 1, a
      fractional page or one beyond `Number.MAX_SAFE_INTEGER` does not. */
  lemma LimitRange(toNumber: string -> Option<real>, p: string, l: string)
    requires toNumber(p) == Some(1.0)
    ensures toNumber(l) == Some(-1.0) ==>
              ParsePagination(toNumber, map["page" := p, "limit" := l]) == Ok(Pagination(1, -1))
    ensures toNumber(l) == Some(0.0) ==>
              ParsePagination(toNumber, map["page" := p, "limit" := l]) == Ok(Pagination(1, 0))
    ensures toNumber(l) == Some(0.0) || toNumber(l) == Some(1.5)
            || toNumber(l) == Some((MaxSafeInteger + 1) as real) ==>
              ParsePagination(toNumber, map["page" := l]).Err?
  {
  }
}
