/**
 * `check_priority_status`: days open against the priority's threshold gives
 * one of four SLA statuses.
 */
module Priority {
  import opened Wrappers
  import opened Tickets
  import opened Dates

  datatype Status = Unknown | Overdue | AtRisk | WithinTime

  /** The status strings written to the output. */
  function StatusName(s: Status): string
  {
    match s
    case Unknown => "unknown"
    case Overdue => "overdue"
    case AtRisk => "at_risk"
    case WithinTime => "within_time"
  }

  /** Priority assumed for a ticket without one. */
  const DefaultPriority: string := "medium"
  /** Threshold for a priority the table does not list. */
  const DefaultThreshold: int := 3

  datatype PriorityStatus = PriorityStatus(daysOpen: int, threshold: int, status: Status)

  /** The status decision: exactly one of the four holds for any input. */
  function Classify(daysOpen: int, threshold: int): (s: Status)
    ensures s == Unknown <==> daysOpen < 0
    ensures s == Overdue <==> 0 <= daysOpen && threshold < daysOpen
    ensures s == AtRisk <==> 0 <= daysOpen && daysOpen == threshold
    ensures s == WithinTime <==> 0 <= daysOpen && daysOpen < threshold
  {
    if daysOpen < 0 then Unknown
    else if daysOpen > threshold then Overdue
    else if daysOpen == threshold then AtRisk
    else WithinTime
  }

  /** `ticket.get("created_date", "")`. */
  function CreatedDate(t: Ticket): (v: Option<string>)
    ensures "created_date" in t ==> v == t["created_date"]
    ensures "created_date" !in t ==> !ValidateDateFormat(v)
  {
    if "created_date" in t then t["created_date"] else Some("")
  }

  /** `priority_level.get(ticket.get("priority", "medium"), 3)`; a null priority is never a key. */
  function Threshold(t: Ticket, thresholds: map<string, int>): (th: int)
    ensures "priority" !in t && DefaultPriority in thresholds ==> th == thresholds[DefaultPriority]
    ensures "priority" in t && t["priority"].Some? && t["priority"].value in thresholds ==>
      th == thresholds[t["priority"].value]
    ensures "priority" !in t && DefaultPriority !in thresholds ==> th == DefaultThreshold
    ensures "priority" in t && (t["priority"].None? || t["priority"].value !in thresholds) ==>
      th == DefaultThreshold
    ensures th == DefaultThreshold || th in thresholds.Values
  {
    var priority := if "priority" in t then t["priority"] else Some(DefaultPriority);
    match priority
    case Some(p) => if p in thresholds then thresholds[p] else DefaultThreshold
    case None => DefaultThreshold
  }

  /** `check_priority_status(ticket, priority_level)` on the day whose ordinal is `today`. */
  function CheckPriorityStatus(t: Ticket, thresholds: map<string, int>, today: int): (p: PriorityStatus)
    ensures p.threshold == Threshold(t, thresholds)
    ensures !ValidateDateFormat(CreatedDate(t)) ==> p.daysOpen == -1 && p.status == Unknown
    ensures ValidateDateFormat(CreatedDate(t)) ==>
      p.daysOpen == today - DayOrdinal(ParseDate(CreatedDate(t).value).value)
    ensures p.status == Classify(p.daysOpen, p.threshold)
  {
    var daysOpen := CalculateDaysOpen(CreatedDate(t), today);
    var threshold := Threshold(t, thresholds);
    PriorityStatus(daysOpen, threshold, Classify(daysOpen, threshold))
  }

  /** For a ticket created on date `d`, days open is the ordinal distance from `d` to today. */
  lemma PriorityOfDated(t: Ticket, thresholds: map<string, int>, today: int, d: Date)
    requires ValidDate(d) && CreatedDate(t) == Some(FormatDate(d))
    ensures var p := CheckPriorityStatus(t, thresholds, today);
      p.daysOpen == today - DayOrdinal(d) && p.status == Classify(today - DayOrdinal(d), p.threshold)
  {
    ParseFormat(d);
  }

  /**
   * The SLA boundary: created exactly `threshold` days ago is at risk, one
   * day earlier is overdue, one day later is within time.
   */
  lemma SlaBoundary(t: Ticket, thresholds: map<string, int>, today: int, d: Date)
    requires ValidDate(d) && CreatedDate(t) == Some(FormatDate(d))
    requires Threshold(t, thresholds) >= 0
    ensures today - DayOrdinal(d) == Threshold(t, thresholds) ==>
      CheckPriorityStatus(t, thresholds, today).status == AtRisk
    ensures today - DayOrdinal(d) == Threshold(t, thresholds) + 1 ==>
      CheckPriorityStatus(t, thresholds, today).status == Overdue
    ensures Threshold(t, thresholds) >= 1 && today - DayOrdinal(d) == Threshold(t, thresholds) - 1 ==>
      CheckPriorityStatus(t, thresholds, today).status == WithinTime
  {
    PriorityOfDated(t, thresholds, today, d);
  }

  /**
   * A status is `unknown` iff the creation date is rejected or lies after
   * today: a future date is not distinguished from a malformed one.
   */
  lemma UnknownIffUndatedOrFuture(t: Ticket, thresholds: map<string, int>, today: int)
    ensures CheckPriorityStatus(t, thresholds, today).status == Unknown <==>
      !ValidateDateFormat(CreatedDate(t)) ||
      (exists d :: ValidDate(d) && CreatedDate(t) == Some(FormatDate(d)) && today < DayOrdinal(d))
  {
    var p := CheckPriorityStatus(t, thresholds, today);
    ValidateDateFormatIff(CreatedDate(t));
    if ValidateDateFormat(CreatedDate(t)) {
      var d :| ValidDate(d) && CreatedDate(t) == Some(FormatDate(d));
      PriorityOfDated(t, thresholds, today, d);
      forall e | ValidDate(e) && CreatedDate(t) == Some(FormatDate(e))
        ensures e == d
      {
        ParseFormat(d);
        ParseFormat(e);
      }
    }
  }

  /** A ticket created one day earlier has been open one day longer. */
  lemma OneDayEarlierOneDayLonger(d: Date, today: int)
    requires ValidDate(d) && ValidDate(NextDay(d))
    ensures CalculateDaysOpen(Some(FormatDate(d)), today)
      == CalculateDaysOpen(Some(FormatDate(NextDay(d))), today) + 1
  {
    ParseFormat(d);
    ParseFormat(NextDay(d));
    NextDayOrdinal(d);
  }
}
