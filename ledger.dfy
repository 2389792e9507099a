/**
 * The `daily_revenue` table: one cumulative amount per calendar day, created
 * on the first checkout of the day and accumulated on every later one.
 */
module Ledger {

  type Revenue = map<int, real>

  /** The amount booked for a day; a day without a row has booked nothing. */
  function Amount(ledger: Revenue, day: int): real
  {
    if day in ledger then ledger[day] else 0.0
  }

  /**
   * The select-then-update-or-insert of a checkout: the day's row grows by
   * `amount`, or is created holding `amount`; every other day is untouched.
   */
  function Record(ledger: Revenue, day: int, amount: real): (r: Revenue)
    ensures r.Keys == ledger.Keys + {day}
    ensures r[day] == Amount(ledger, day) + amount
    ensures forall d :: d in ledger && d != day ==> r[d] == ledger[d]
  {
    if day in ledger then ledger[day := ledger[day] + amount]
    else ledger[day := amount]
  }

  /** Seen through `Amount`, recording adds `amount` to that day and zero to all others. */
  lemma AmountAfterRecord(ledger: Revenue, day: int, amount: real, d: int)
    ensures Amount(Record(ledger, day, amount), d) == Amount(ledger, d) + (if d == day then amount else 0.0)
  {
  }

  /** Two checkouts of 50 and 75 on one day book 125 for that day and nothing elsewhere. */
  lemma TwoCheckoutsSameDay(ledger: Revenue, day: int, other: int)
    requires day !in ledger && other != day
    ensures Record(Record(ledger, day, 50.0), day, 75.0)[day] == 125.0
    ensures Amount(Record(Record(ledger, day, 50.0), day, 75.0), other) == Amount(ledger, other)
  {
  }
}
