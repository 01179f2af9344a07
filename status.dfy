/**
  The status deriver's rule, shared by both `addStatus` functions.

  Timestamps are whole nanoseconds since the Unix epoch; "now" is a
  parameter instead of a clock read.
*/
module Status {
  import opened Wrappers

  const Open := "OPEN"
  const Closed := "CLOSED"

  /**
    The instant a possibly missing start time reads as. The Go code calls
    AsTime() even on a nil timestamp; that call is nil-safe and reads nil as
    the Unix epoch.
  */
  function AsTime(start: Option<int>): int
  {
    if start.Some? then start.value else 0
  }

  /** OPEN when the start is strictly after now, CLOSED otherwise. */
  function StatusAt(start: Option<int>, now: int): (s: string)
    ensures s == Open || s == Closed
  {
    if AsTime(start) > now then Open else Closed
  }

  /** A present start time: OPEN exactly when it is strictly after now. */
  lemma OpenIffFuture(start: int, now: int)
    ensures StatusAt(Some(start), now) == Open <==> start > now
    ensures StatusAt(Some(start), now) == Closed <==> start <= now
  {
  }

  /** A missing start time gives CLOSED for every clock reading from the epoch on. */
  lemma AbsentIsClosed(now: int)
    requires now >= 0
    ensures StatusAt(None, now) == Closed
  {
  }
}
