/** src/middleware/logger.middleware.ts: the shared logger, reduced to the
    records it receives, and `requestLogger`, which logs every request on
    arrival and again when the response finishes, at a level chosen by the
    status class. Times are milliseconds read from the clock by the caller. */
module Logging {
  import opened Wrappers

  datatype Level = Info | Warn | Error

  /** pino's numeric value of a level. */
  function LevelValue(level: Level): nat {
    match level
    case Info => 30
    case Warn => 40
    case Error => 50
  }

  /** The logger's `level` option: records below `AtLeast(value)` are
      dropped; `silent` drops everything. */
  datatype Threshold = AtLeast(value: nat) | Silent

  /** The level name a logger is created with: `process.env.LOG_LEVEL`,
      or `info` when it is unset or empty. */
  function LevelName(logLevel: Option<string>): string {
    if logLevel.None? || logLevel.value == "" then "info" else logLevel.value
  }

  /** `process.env.LOG_LEVEL || 'info'` as pino reads it; an unknown level
      name makes pino refuse to create the logger (`None`). */
  function ThresholdOf(logLevel: Option<string>): (t: Option<Threshold>)
    ensures t.None? <==> LevelName(logLevel) !in {"trace", "debug", "info", "warn", "error", "fatal", "silent"}
    ensures logLevel.None? || logLevel == Some("") ==> t == Some(AtLeast(30))
    ensures LevelName(logLevel) == "trace" ==> t == Some(AtLeast(10))
    ensures LevelName(logLevel) == "debug" ==> t == Some(AtLeast(20))
    ensures LevelName(logLevel) == "info" ==> t == Some(AtLeast(30))
    ensures LevelName(logLevel) == "warn" ==> t == Some(AtLeast(40))
    ensures LevelName(logLevel) == "error" ==> t == Some(AtLeast(50))
    ensures LevelName(logLevel) == "fatal" ==> t == Some(AtLeast(60))
    ensures LevelName(logLevel) == "silent" ==> t == Some(Silent)
  {
    var name := LevelName(logLevel);
    if name == "trace" then Some(AtLeast(10))
    else if name == "debug" then Some(AtLeast(20))
    else if name == "info" then Some(AtLeast(30))
    else if name == "warn" then Some(AtLeast(40))
    else if name == "error" then Some(AtLeast(50))
    else if name == "fatal" then Some(AtLeast(60))
    else if name == "silent" then Some(Silent)
    else None
  }

  predicate Enabled(t: Threshold, level: Level) {
    t.AtLeast? && LevelValue(level) >= t.value
  }

  /** The records of `rs` the threshold lets through, in order. */
  function Kept(t: Threshold, rs: seq<LogRecord>): (r: seq<LogRecord>)
    ensures |r| <= |rs|
    ensures forall x :: x in r <==> x in rs && Enabled(t, x.level)
  {
    if rs == [] then []
    else (if Enabled(t, rs[0].level) then [rs[0]] else []) + Kept(t, rs[1..])
  }

  /** One log record: its level, its message, and the request fields that
      `requestLogger` attaches (absent ones are `None` or `-1`). */
  datatype LogRecord = LogRecord(level: Level, message: string, httpMethod: string,
                                 url: string, ip: Option<string>, status: int, durationMs: int)

  class Logger {
    const threshold: Threshold
    var records: seq<LogRecord>

    constructor (threshold: Threshold)
      ensures this.threshold == threshold && records == []
    {
      this.threshold := threshold;
      records := [];
    }

    /** `logger.info(...)`, `logger.warn(...)`, `logger.error(...)`: the
        record is written when its level reaches the threshold. */
    method Log(r: LogRecord)
      modifies this
      ensures records == old(records) + Kept(threshold, [r])
      ensures Enabled(threshold, r.level) ==> records == old(records) + [r]
      ensures !Enabled(threshold, r.level) ==> records == old(records)
    {
      if Enabled(threshold, r.level) {
        records := records + [r];
      }
    }
  }

  /** Level of the completion record: server errors at error, client errors
      at warn, everything else at info. */
  function LevelFor(status: int): (level: Level)
    ensures level == Error <==> status >= 500
    ensures level == Warn <==> 400 <= status < 500
    ensures level == Info <==> status < 400
  {
    if status >= 500 then Error
    else if status >= 400 then Warn
    else Info
  }

  function CompletionMessage(level: Level): string {
    match level
    case Error => "Request completed with error"
    case Warn => "Request completed with client error"
    case _ => "Request completed"
  }

  /** The record written when the request arrives. */
  function ArrivalRecord(httpMethod: string, url: string, ip: string): (r: LogRecord)
    ensures r.level == Info && r.message == "Incoming request"
    ensures r.httpMethod == httpMethod && r.url == url && r.ip == Some(ip)
  {
    LogRecord(Info, "Incoming request", httpMethod, url, Some(ip), -1, -1)
  }

  /** The record written on `finish`: status, level by status class, and the
      elapsed milliseconds. */
  function CompletionRecord(httpMethod: string, url: string, status: int,
                            start: int, finish: int): (r: LogRecord)
    ensures r.level == LevelFor(status) && r.status == status
    ensures r.durationMs == finish - start
    ensures r.httpMethod == httpMethod && r.url == url && r.ip.None?
  {
    LogRecord(LevelFor(status), CompletionMessage(LevelFor(status)), httpMethod, url, None,
              status, finish - start)
  }

  /** `requestLogger` on arrival: one record, written before `next()`. */
  method LogArrival(logger: Logger, httpMethod: string, url: string, ip: string)
    modifies logger
    ensures logger.records == old(logger.records) + Kept(logger.threshold, [ArrivalRecord(httpMethod, url, ip)])
  {
    logger.Log(ArrivalRecord(httpMethod, url, ip));
  }

  /** The `finish` callback `requestLogger` registers: one record with the
      status and the time elapsed since `start`. */
  method LogCompletion(logger: Logger, httpMethod: string, url: string, status: int,
                       start: int, finish: int)
    modifies logger
    ensures logger.records == old(logger.records)
                              + Kept(logger.threshold, [CompletionRecord(httpMethod, url, status, start, finish)])
  {
    logger.Log(CompletionRecord(httpMethod, url, status, start, finish));
  }

  /** One request through `requestLogger` whose handler writes nothing to
      this logger: the arrival record, then the completion record, each kept
      or dropped by the threshold. */
  method LogRequest(logger: Logger, httpMethod: string, url: string, ip: string, status: int,
                    start: int, finish: int)
    modifies logger
    ensures logger.records == old(logger.records)
                              + RequestRecords(logger.threshold, httpMethod, url, ip, status, start, finish)
  {
    LogArrival(logger, httpMethod, url, ip);
    LogCompletion(logger, httpMethod, url, status, start, finish);
  }

  /** What one request adds to the log under threshold `t`: the arrival
      record when `t` lets info through, then the completion record when
      `t` lets its status's level through. */
  function RequestRecords(t: Threshold, httpMethod: string, url: string, ip: string, status: int,
                          start: int, finish: int): (rs: seq<LogRecord>)
    ensures rs == (if Enabled(t, Info) then [ArrivalRecord(httpMethod, url, ip)] else [])
                  + (if Enabled(t, LevelFor(status))
                     then [CompletionRecord(httpMethod, url, status, start, finish)] else [])
  {
    var a := ArrivalRecord(httpMethod, url, ip);
    var c := CompletionRecord(httpMethod, url, status, start, finish);
    assert [a, c][1..] == [c] && [c][1..] == [];
    assert Kept(t, [c]) == (if Enabled(t, c.level) then [c] else []) + Kept(t, []);
    assert Kept(t, [a, c]) == (if Enabled(t, a.level) then [a] else []) + Kept(t, [c]);
    Kept(t, [a, c])
  }

  /** Under the default level both records of a request are written, the
      arrival first; under `warn` only the completion of a failed request
      is; under `silent` nothing is. */
  lemma RequestRecordsByLevel(httpMethod: string, url: string, ip: string, status: int,
                              start: int, finish: int)
    ensures RequestRecords(ThresholdOf(None).value, httpMethod, url, ip, status, start, finish)
            == [ArrivalRecord(httpMethod, url, ip), CompletionRecord(httpMethod, url, status, start, finish)]
    ensures RequestRecords(ThresholdOf(Some("warn")).value, httpMethod, url, ip, status, start, finish)
            == (if status >= 400 then [CompletionRecord(httpMethod, url, status, start, finish)] else [])
    ensures RequestRecords(ThresholdOf(Some("silent")).value, httpMethod, url, ip, status, start, finish)
            == []
  {
    var c := CompletionRecord(httpMethod, url, status, start, finish);
    assert [ArrivalRecord(httpMethod, url, ip)] + [c] == [ArrivalRecord(httpMethod, url, ip), c];
  }

  /** Every completion message is not the arrival message. */
  lemma CompletionIsNotArrival(httpMethod: string, url: string, status: int, start: int, finish: int)
    ensures CompletionRecord(httpMethod, url, status, start, finish).message != "Incoming request"
  {
  }
}
