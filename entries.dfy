/**
 * The records of the time-card store: one line item of work or leave
 * (`TimeCardEntry`) and the per-date aggregate (`TimeCard`).
 */
module Entries {
  import opened Wrappers

  /** A calendar date; the model only uses equality and order, so a day number stands in for it. */
  type Date = int

  /** One row of the `records` table. */
  datatype TimeCardEntry = TimeCardEntry(
    workDate: Date,
    lineItem: int,
    workorder: string,
    phase: string,
    hours: real,
    description: string,
    action: string,
    timeCode: string)

  /** The store's key for a row: (work_date, line_item). */
  function Key(e: TimeCardEntry): (Date, int)
  {
    (e.workDate, e.lineItem)
  }

  /**
   * `values()`: the fields as a tuple in column order; `showHours` stands
   * for Python's `str` on the hours value.
   */
  function Values(e: TimeCardEntry, showHours: real -> string): (Date, int, string, string, string, string, string, string)
  {
    (e.workDate, e.lineItem, e.workorder, e.phase, showHours(e.hours), e.description, e.action, e.timeCode)
  }

  /** The entries of one date; `date` is `None` for the empty view the store starts with. */
  datatype TimeCard = TimeCard(date: Option<Date>, entries: seq<TimeCardEntry>)

  /** Sum of the hours of a sequence of entries. */
  function Hours(s: seq<TimeCardEntry>): real
  {
    if s == [] then 0.0 else s[0].hours + Hours(s[1..])
  }

  /** `TimeCard.hours`. */
  function CardHours(tc: TimeCard): real
  {
    Hours(tc.entries)
  }

  /** `len(TimeCard)`. */
  function Size(tc: TimeCard): nat
  {
    |tc.entries|
  }

  /** `bool(TimeCard)`: a date object is always truthy, `None` is not. */
  predicate IsComplete(tc: TimeCard)
  {
    |tc.entries| > 0 && tc.date.Some?
  }

  lemma {:induction false} HoursAppend(a: seq<TimeCardEntry>, b: seq<TimeCardEntry>)
    ensures Hours(a + b) == Hours(a) + Hours(b)
  {
    if a != [] {
      assert (a + b)[0] == a[0] && (a + b)[1..] == a[1..] + b;
      HoursAppend(a[1..], b);
    } else {
      assert a + b == b;
    }
  }

  /** The hours of a card do not depend on the line-item numbers. */
  lemma {:induction false} HoursIgnoreLineItems(a: seq<TimeCardEntry>, b: seq<TimeCardEntry>)
    requires |a| == |b|
    requires forall i :: 0 <= i < |a| ==> a[i].hours == b[i].hours
    ensures Hours(a) == Hours(b)
  {
    if a != [] {
      HoursIgnoreLineItems(a[1..], b[1..]);
    }
  }
}
