/** `nextCronAfter`: parse, then scan in UTC or in the wall time of a zone. */
module CronEngine {
  import opened Prelude
  import opened Calendar
  import opened CronScan
  import opened CronZone
  import CronParser

  /** No zone, a known zone at a constant whole-minute offset, or a name the host does not know. */
  datatype Zone = Utc | Fixed(offset: int) | Unknown

  datatype NextError = BadExpression(error: CronParser.CronError) | UnknownZone | NoOccurrenceInWindow

  /** The next occurrence of an expression, or exactly why there is none. */
  ghost predicate NextResult(expression: string, zone: Zone, after: int, r: Result<int, NextError>) {
    if !CronParser.Accepted(expression) then r.Err? && r.error.BadExpression?
    else if zone.Unknown? then r == Err(UnknownZone)
    else
      exists cron: Cron, scanned: Result<int, ScanError> ::
        && CronParser.ParsedFrom(cron, CronParser.Fields(expression)) && ValidCron(cron)
        && (if zone.Utc? then UtcResult(cron, after, scanned) else ZoneResult(cron, zone.offset, after, scanned))
        && r == (if scanned.Ok? then Ok(scanned.value) else Err(NoOccurrenceInWindow))
  }

  method NextCronAfter(expression: string, zone: Zone, after: int) returns (r: Result<int, NextError>)
    requires zone.Fixed? ==> zone.offset % MINUTE_MS == 0 && after >= 0
    ensures NextResult(expression, zone, after, r)
  {
    hide *;
    var parsed := CronParser.ParseExpression(expression);
    if parsed.Err? {
      r := Err(BadExpression(parsed.error));
      Rejected(expression, zone, after, parsed.error);
      return;
    }
    var cron := parsed.value;
    var scanned: Result<int, ScanError>;
    match zone {
      case Utc =>
        scanned := NextCronArithmetic(cron, after);
        UtcScanned(cron, after, scanned);
      case Fixed(offset) =>
        scanned := NextCronInTimezone(cron, offset, after);
      case Unknown =>
        ZoneUnknown(expression, after);
        return Err(UnknownZone);
    }
    r := if scanned.Ok? then Ok(scanned.value) else Err(NoOccurrenceInWindow);
    Scanned(expression, zone, after, cron, scanned);
  }

  lemma Rejected(expression: string, zone: Zone, after: int, error: CronParser.CronError)
    requires !CronParser.Accepted(expression)
    ensures NextResult(expression, zone, after, Err(BadExpression(error)))
  {
    hide CronParser.Accepted;
  }

  lemma ZoneUnknown(expression: string, after: int)
    requires CronParser.Accepted(expression)
    ensures NextResult(expression, Unknown, after, Err(UnknownZone))
  {
    hide CronParser.Accepted;
  }

  lemma UtcScanned(cron: Cron, after: int, scanned: Result<int, ScanError>)
    requires scanned.Ok? ==> FirstAfter(cron, after, scanned.value) && scanned.value < NextMinute(after) + SCAN_CAP
    requires scanned.Err? ==> NoneBetween(cron, after, NextMinute(after) + SCAN_CAP)
    ensures UtcResult(cron, after, scanned)
  {
    hide FirstAfter, NoneBetween;
  }

  lemma Scanned(expression: string, zone: Zone, after: int, cron: Cron, scanned: Result<int, ScanError>)
    requires CronParser.Accepted(expression) && !zone.Unknown?
    requires CronParser.ParsedFrom(cron, CronParser.Fields(expression)) && ValidCron(cron)
    requires if zone.Utc? then UtcResult(cron, after, scanned) else ZoneResult(cron, zone.offset, after, scanned)
    ensures NextResult(expression, zone, after, if scanned.Ok? then Ok(scanned.value) else Err(NoOccurrenceInWindow))
  {
    hide CronParser.Accepted, CronParser.ParsedFrom, ValidCron, UtcResult, ZoneResult, CronParser.Fields;
  }

  /** Whatever the zone, an occurrence lies strictly after the instant it was asked for. */
  lemma NextIsLater(expression: string, zone: Zone, after: int, r: Result<int, NextError>)
    requires NextResult(expression, zone, after, r) && r.Ok?
    ensures r.value > after
  {
    hide CronParser.Accepted, CronParser.ParsedFrom, CronParser.Fields, ValidCron;
  }
}
