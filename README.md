# Parking slot allocation and billing engine

A Dafny model of the engine inside `saniya.py`, a small car-parking web
application. The facility has twenty numbered slots. The engine covers five
things:

- **Slot table.** The global `slots` table holds each slot as free or as the
  car number parked there.
- **Park.** `park_car` gives a car the lowest-numbered free slot and records
  an open session in the `user_info` table.
- **Checkout.** `checkout_car` finds the car's slot, looks up its open
  session, bills the stay, closes the session, adds the cost to the
  `daily_revenue` table and to the running `daily_revenue` total, and frees
  the slot.
- **Reconciliation.** `load_parked_slots` writes every open session back into
  the slot table. It runs at start-up and on every request for the home page.
- **Admin password rule.** The signup form checks new passwords with a fixed
  regular expression.

Layout, one module per file:

- `wrappers.dfy` (`Wrappers`): the `Option` type.
- `tariff.dfy` (`Tariff`): the fee bands of `calculate_cost` and the
  billed-duration arithmetic of a checkout.
- `password.dfy` (`Password`): the signup password pattern.
- `sessions.dfy` (`Sessions`): the `user_info` table as a sequence of rows,
  with the lookup and the update a checkout runs against it.
- `ledger.dfy` (`Ledger`): the `daily_revenue` table as a map from day to
  amount.
- `slot_table.dfy` (`SlotTable`): which slot a park or a checkout chooses, and
  what reconciliation does to a table. These are functions on table values.
- `parking.dfy` (`Parking`): the class `ParkingLot`. Its fields are the slot
  table, the two database tables and the running total. It has `Park`,
  `Checkout` and `Reconcile` methods that update those fields in place.

The engine's invariant is `ParkingLot.Consistent()`. It has two parts:

- **Table and sessions agree.** Every open session's car sits in its slot,
  and every occupied slot has exactly one open session for its occupant.
- **Ledger and history agree.** Each day's booked revenue equals the sum of
  the costs of the sessions checked out that day.

`Park` and `Checkout` keep this invariant. `Reconcile` leaves a consistent
table unchanged. Reconciling an all-free table against stored sessions with
one open session per slot makes table and sessions agree. While the invariant
holds, the "Car not found in the system" branch of a checkout cannot be
reached.

Modelling choices:

- **Time.** The clock is a parameter. Timestamps are whole seconds and a day
  is `t / 86400`. Flooring `total_seconds()` to whole seconds does not change
  the hours or minutes of a stay, because both are floored divisions by whole
  multiples of a second.
- **Money.** Money and billed hours are exact reals.
- **Session lookup.** The lookup `SELECT ... fetchone()` has no `ORDER BY`.
  The model reads it as the earliest inserted matching row. The checkout
  `UPDATE` closes every open row of that car in that slot, as the SQL does.
- **Reconciliation order.** The `SELECT` in `load_parked_slots` has no
  `ORDER BY` either. The model takes the open rows in insertion order, so
  when two open rows name one slot, the later inserted one wins.
- **Receipt path.** The receipt stored in the session row and returned by a
  checkout is `Parking.ReceiptPath(car, slot)`, the path
  `generated_pdfs/receipt_<car>_<slot>.pdf` built by `generate_pdf`.
- **Empty car number.** Checkout matches a slot with the Python test
  `details and car_number == details`. An empty car number is falsy, so it
  never matches: a car parked under an empty number can never be checked out.
  `SlotTable.LowestHolding` states this.

Behaviour of the code worth knowing:

- **No duplicate-checkout guard.** Once the car holds no slot, a further
  checkout answers "Car not found". A car parked twice holds a second slot,
  and its next checkout settles that slot.
- **Double parking is allowed.** `park_car` does not check whether the car is
  already parked, so one car can hold two slots.
- **The running total is never reset.** The global `daily_revenue` grows from
  process start. It is never reset at midnight.

## Model

| member | source | states |
|---|---|---|
| Tariff.Cost | saniya.py:54-61 | the fee is never below the base fee of 50, and equals 50 exactly when the stay is at most one hour (a stay of exactly 1 hour is in the lowest band) |
| Tariff.CostIsMarginalFee | saniya.py:54-61 | the three bands equal the marginal schedule: 50, plus 40 per hour between 1 and 5 hours, plus 30 per hour past 5 hours; so the bands agree at both boundaries |
| Tariff.CostAtBoundaries | saniya.py:54-61 | cost(1) = 50, cost(5) = 210, cost(6) = 240, cost(1.0001) = 50 + 0.0001 * 40 |
| Tariff.CostMonotone | saniya.py:54-61 | a longer billed duration never costs less |
| Tariff.LeftoverMinutes | saniya.py:165 | the minutes shown beside the whole hours are always 0..59 |
| Tariff.MinutesSplit | saniya.py:164-165 | whole hours * 60 + leftover minutes is exactly the number of whole minutes elapsed |
| Tariff.BilledHours | saniya.py:163-166 | billed hours are whole minutes / 60; they never exceed the true duration and fall short of it by less than one minute |
| Tariff.Fee | saniya.py:163-166 | the checkout fee is at least the base fee, for any elapsed time, including a negative one |
| Tariff.FeeMonotone | saniya.py:163-166 | a stay that lasts longer in seconds never costs less, even though partial minutes are dropped |
| Tariff.FeeFirstBand | saniya.py:163-166 | the fee is the base fee exactly when the stay is shorter than 1 hour 1 minute (3660 seconds) |
| Password.Scan | saniya.py:309 | one pass over the candidate computes whether every character is permitted and whether a letter, a digit and a special occur |
| Password.Anchored | saniya.py:309 | the `$` anchor sees the input, or the input minus one final newline |
| Password.Accepts | saniya.py:309-311 | the pattern matches exactly when the anchored input meets the rule: length at least 6, only letters, digits and `@$!%*?&`, and at least one of each kind |
| Password.AcceptsIffRule | saniya.py:309-312 | for input without newlines, accepted if and only if the stated rule holds |
| Password.TrailingNewlineAccepted | saniya.py:309-311 | a valid password followed by one newline is accepted, although it breaks the stated rule |
| Password.AcceptsExample | saniya.py:309-311 | "abc12@" is accepted |
| Password.RejectsExamples | saniya.py:309-312 | passwords without a special, shorter than 6, or with a blank are rejected |
| Sessions.FirstOpen | saniya.py:143-147 | the session lookup returns the earliest open row for the car in that slot, and returns nothing exactly when no such row exists |
| Sessions.CloseOpen | saniya.py:176-180 | the checkout update closes every open row of the car in that slot with check-out, cost and receipt; every other row is unchanged |
| Sessions.OpenCountZero | saniya.py:143-151 | a car has no open session in a slot exactly when no row matches the lookup |
| Sessions.OpenCountAtMostOne | saniya.py:112-113 | when no two open rows share a slot, a car has at most one open session per slot |
| Sessions.OpenCountAfterClose | saniya.py:176-180 | after the update the car has no open session in that slot, and every other (car, slot) keeps its count |
| Sessions.DayTotalAfterClose | saniya.py:176-194 | closing the one open session adds its cost to the revenue of the check-out day and nothing to any other day |
| Sessions.DayTotalAfterOpen | saniya.py:112-113 | inserting an open session changes no day's revenue |
| Ledger.Record | saniya.py:183-194 | the day's row becomes old amount + cost if present, is created with the cost otherwise, and every other day is unchanged |
| Ledger.AmountAfterRecord | saniya.py:183-194 | read with a zero default, recording adds the cost to its day and zero to every other day |
| Ledger.TwoCheckoutsSameDay | saniya.py:183-194 | checkouts of 50 and 75 on one day book 125 for that day and leave another day untouched |
| SlotTable.Empty | saniya.py:38 | the start-up table has exactly slots 1..20, all free |
| SlotTable.LowestFree | saniya.py:104-107 | the slot a park picks is free and every lower slot is taken; there is none exactly when all 20 slots are taken |
| SlotTable.LowestHolding | saniya.py:138-139 | the slot a checkout picks holds the car and no lower slot does; there is none exactly when no slot holds it; an empty car number is never found |
| SlotTable.ReconciledDomain | saniya.py:92-93 | reconciliation adds to the table only the slots that open sessions name |
| SlotTable.ReconcileNeverFrees | saniya.py:92-93 | reconciliation never frees a slot |
| SlotTable.ReconcileKeepsUnnamed | saniya.py:92-93 | a slot that no open session names keeps its previous value |
| SlotTable.ReconcileLastWins | saniya.py:92-93 | a slot named by open sessions ends holding the car of the last of them |
| Parking.ParkKeepsCoherent | saniya.py:104-116 | a park into the lowest free slot keeps table and sessions in agreement |
| Parking.CheckoutKeepsCoherent | saniya.py:176-201 | closing the car's session and freeing its slot keeps table and sessions in agreement |
| Parking.OccupiedIsFound | saniya.py:138-157 | while table and sessions agree, the session lookup for an occupied slot succeeds |
| Parking.CheckoutKeepsLedger | saniya.py:176-194 | a checkout keeps every day's booked revenue equal to the sum of that day's checked-out costs |
| Parking.ParkKeepsLedger | saniya.py:110-116 | a park keeps the ledger in agreement with the session history |
| Parking.LastOpenExists | saniya.py:92-93 | among the open sessions that name a slot, one is the last written |
| Parking.ReconcileIdleWhenCoherent | saniya.py:92-97 | reconciling a table that already agrees with the sessions changes nothing |
| Parking.ReconcileFromEmpty | saniya.py:371-372 | at start-up, reconciling the all-free table against sessions with one open session per slot yields a table that agrees with them |
| Parking.ReconcileScenario | saniya.py:92-107 | with open sessions in slots 3 and 7, reconciliation fills those slots and the next park gets slot 1 |
| Parking.ParkingLot.constructor | saniya.py:38-39 | at process start every slot is free and the running total is 0 |
| Parking.ParkingLot.Reconcile | saniya.py:84-93 | the new table is the reconciliation of the old one; the database and the total are unchanged; a consistent table is left as it was |
| Parking.ParkingLot.Park | saniya.py:101-130 | the lowest free slot gets the car and a new open session is stored, every other slot is unchanged; with all slots taken nothing changes; consistency is kept |
| Parking.ParkingLot.Checkout | saniya.py:134-218 | no holding slot: nothing changes; holding slot without open session: nothing changes; otherwise the settlement below, returning the slot, whole hours, leftover minutes, the fee and the receipt path `ReceiptPath(car, slot)` built at saniya.py:80; consistency is kept, and under it the missing-session outcome is impossible |
| Parking.ParkingLot.Settle | saniya.py:159-201 | the fee of the stay is billed, the session closed with it and with the receipt path `ReceiptPath(car, slot)` built at saniya.py:80, the day's revenue row and the running total grow by exactly the fee, and the slot is freed |

## Left out

- **Web layer.** Flask routes, HTML and JavaScript responses, templates and
  session cookies are left out. They only present outcomes, so outcomes are
  returned as datatypes.
- **Database.** The MySQL connections, cursors and SQL text are left out, and
  so are transactions and connection failures. The two tables are held as
  values, and a database error has no counterpart in the model.
- **Receipts.** PDF receipt generation and file serving are left out. The
  receipt is represented only by the path string stored in the session row.
  The file name shown to the user is not modelled.
- **Admin dashboard.** The chart, the booked/available lists and the revenue
  history query are left out. They are read-only presentation code.
- **OTP flow.** OTP generation, SMS delivery and the OTP store are left out.
  They involve randomness and the network and are outside the engine.
- **Clock and rounding.** `datetime.now()` is an input. The float rounding of
  `minutes / 60` and of the fees is replaced by exact reals.
- **Unicode digits.** Python's `\d` also matches non-ASCII digits. The model
  treats only `0`..`9` as digits.
- **Concurrency.** Concurrent requests are not modelled. This includes races
  on the shared slot table and the non-atomic select-then-insert of a
  revenue row. The model is sequential, as the code is written.
- Parking.ParkingLot.constructor: requires every stored session to name a slot in 1..20. Python would add any other slot number to `slots` as a new key. Only `park_car` writes sessions, and it always uses 1..20.
- Parking.ParkingLot.Settle: assumes the receipt is always written. In the code, `daily_revenue += cost` runs before `generate_pdf`. If writing the PDF fails, for example for a car number containing `/`, the request aborts. The running total has then already grown by the fee, while the session stays open, the slot stays taken and the ledger row is not written. A retry adds the fee to the total again. The model does not capture this failure path.
