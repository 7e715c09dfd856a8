/**
 * Log dates are `YYYY-MM-DD` strings; the views turn them into instants with
 * `new Date(date)`. That parse is a parameter here: it yields milliseconds,
 * or `None` where JavaScript would produce an invalid date (NaN).
 */
module Dates {
  import opened Wrappers
  import opened Types

  type DateParser = string -> Option<int>

  predicate Dated(parse: DateParser, l: ContentLog) {
    parse(l.date).Some?
  }

  /** Every log's date parses. */
  predicate AllDated(parse: DateParser, logs: seq<ContentLog>) {
    forall l :: l in logs ==> Dated(parse, l)
  }

  /** `new Date(l.date).getTime()` for a log whose date parses. */
  function Millis(parse: DateParser, l: ContentLog): int
    requires Dated(parse, l)
  {
    parse(l.date).value
  }

  /** Most recent first: no log is newer than one placed before it. */
  predicate NewestFirst(parse: DateParser, logs: seq<ContentLog>)
    requires AllDated(parse, logs)
  {
    forall i, j :: 0 <= i < j < |logs| ==> Millis(parse, logs[j]) <= Millis(parse, logs[i])
  }
}
