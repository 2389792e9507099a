/**
 * The `user_info` table: one row per parking session. `park_car` inserts an
 * open row (no check-out yet); `checkout_car` looks the open row up and closes
 * it with the check-out time, the cost and the receipt path. The table is a
 * sequence in insertion order.
 */
module Sessions {
  import opened Wrappers

  const SecondsPerDay := 86400

  /** Calendar day of a timestamp in seconds (the `date` of a datetime). */
  function DayOf(t: int): int { t / SecondsPerDay }

  datatype Session = Session(
    car: string,
    slot: int,
    checkIn: int,
    date: int,                  // the check-in day
    checkOut: Option<int>,      // NULL while the car is parked
    cost: Option<real>,
    receipt: Option<string>)

  /** A row of `... WHERE check_out IS NULL`. */
  predicate Active(r: Session) { r.checkOut.None? }

  /** A row of `... WHERE car_number = car AND slot = slot AND check_out IS NULL`. */
  predicate OpenFor(r: Session, car: string, slot: int)
  {
    Active(r) && r.car == car && r.slot == slot
  }

  /** The row `park_car` inserts for a car given `slot` at time `now`. */
  function Opened(car: string, slot: int, now: int): Session
  {
    Session(car, slot, now, DayOf(now), None, None, None)
  }

  /** The columns `checkout_car` sets on an open row. */
  function Close(r: Session, now: int, cost: real, receipt: string): Session
  {
    r.(checkOut := Some(now), cost := Some(cost), receipt := Some(receipt))
  }

  /** No two open rows name the same slot. */
  ghost predicate UniqueOpenSlots(rows: seq<Session>)
  {
    forall i, j ::
      0 <= i < |rows| && 0 <= j < |rows| && Active(rows[i]) && Active(rows[j]) && rows[i].slot == rows[j].slot
      ==> i == j
  }

  function FirstOpenFrom(rows: seq<Session>, car: string, slot: int, from: nat): (k: Option<nat>)
    requires from <= |rows|
    decreases |rows| - from
    ensures k.Some? ==> from <= k.value < |rows| && OpenFor(rows[k.value], car, slot)
    ensures k.Some? ==> forall j :: from <= j < k.value ==> !OpenFor(rows[j], car, slot)
    ensures k.None? ==> forall j :: from <= j < |rows| ==> !OpenFor(rows[j], car, slot)
  {
    if from == |rows| then None
    else if OpenFor(rows[from], car, slot) then Some(from)
    else FirstOpenFrom(rows, car, slot, from + 1)
  }

  /**
   * `SELECT check_in ... WHERE car_number, slot, check_out IS NULL` followed
   * by `fetchone()`: the earliest open row for the car in that slot, if any.
   */
  function FirstOpen(rows: seq<Session>, car: string, slot: int): (k: Option<nat>)
    ensures k.Some? ==> k.value < |rows| && OpenFor(rows[k.value], car, slot)
    ensures k.Some? ==> forall j :: 0 <= j < k.value ==> !OpenFor(rows[j], car, slot)
    ensures k.None? <==> forall j :: 0 <= j < |rows| ==> !OpenFor(rows[j], car, slot)
  {
    FirstOpenFrom(rows, car, slot, 0)
  }

  /**
   * `UPDATE user_info SET check_out, cost, pdf_path WHERE car_number, slot,
   * check_out IS NULL`: every open row of the car in that slot is closed,
   * every other row is left as it was.
   */
  function CloseOpen(rows: seq<Session>, car: string, slot: int, now: int, cost: real, receipt: string)
    : (r: seq<Session>)
    ensures |r| == |rows|
    ensures forall i :: 0 <= i < |rows| && OpenFor(rows[i], car, slot) ==> r[i] == Close(rows[i], now, cost, receipt)
    ensures forall i :: 0 <= i < |rows| && !OpenFor(rows[i], car, slot) ==> r[i] == rows[i]
  {
    if rows == [] then []
    else
      var last := rows[|rows| - 1];
      CloseOpen(rows[..|rows| - 1], car, slot, now, cost, receipt)
        + [if OpenFor(last, car, slot) then Close(last, now, cost, receipt) else last]
  }

  /** How many open rows the car has in that slot. */
  function OpenCount(rows: seq<Session>, car: string, slot: int): nat
  {
    if rows == [] then 0
    else OpenCount(rows[..|rows| - 1], car, slot) + (if OpenFor(rows[|rows| - 1], car, slot) then 1 else 0)
  }

  /** What one row adds to the revenue of day `d`: its cost, if it was checked out that day. */
  function Contribution(r: Session, d: int): real
  {
    if r.checkOut.Some? && r.cost.Some? && DayOf(r.checkOut.value) == d then r.cost.value else 0.0
  }

  /** The revenue of day `d` according to the session history. */
  function DayTotal(rows: seq<Session>, d: int): real
  {
    if rows == [] then 0.0
    else DayTotal(rows[..|rows| - 1], d) + Contribution(rows[|rows| - 1], d)
  }

  lemma {:induction false} OpenCountZero(rows: seq<Session>, car: string, slot: int)
    ensures OpenCount(rows, car, slot) == 0 <==> forall j :: 0 <= j < |rows| ==> !OpenFor(rows[j], car, slot)
  {
    if rows != [] {
      var init := rows[..|rows| - 1];
      OpenCountZero(init, car, slot);
      assert forall j :: 0 <= j < |init| ==> init[j] == rows[j];
    }
  }

  /** While open slots are unique, a car has at most one open row per slot. */
  lemma {:induction false} OpenCountAtMostOne(rows: seq<Session>, car: string, slot: int)
    requires UniqueOpenSlots(rows)
    ensures OpenCount(rows, car, slot) <= 1
  {
    if rows != [] {
      var n := |rows| - 1;
      var init := rows[..n];
      assert forall j :: 0 <= j < n ==> init[j] == rows[j];
      assert UniqueOpenSlots(init);
      OpenCountAtMostOne(init, car, slot);
      if OpenFor(rows[n], car, slot) {
        OpenCountZero(init, car, slot);
      }
    }
  }

  /** After the update no open row of the car in that slot is left; other counts are untouched. */
  lemma {:induction false} OpenCountAfterClose(rows: seq<Session>, car: string, slot: int, now: int, cost: real,
                                               receipt: string, car': string, slot': int)
    ensures OpenCount(CloseOpen(rows, car, slot, now, cost, receipt), car', slot')
         == if car' == car && slot' == slot then 0 else OpenCount(rows, car', slot')
  {
    if rows != [] {
      var n := |rows| - 1;
      var closed := CloseOpen(rows, car, slot, now, cost, receipt);
      assert closed[..n] == CloseOpen(rows[..n], car, slot, now, cost, receipt);
      OpenCountAfterClose(rows[..n], car, slot, now, cost, receipt, car', slot');
    }
  }

  /**
   * Closing the (at most one) open row of the car in that slot adds its cost
   * to the day of the check-out, and nothing to any other day.
   */
  lemma {:induction false} DayTotalAfterClose(rows: seq<Session>, car: string, slot: int, now: int, cost: real,
                                              receipt: string, d: int)
    requires OpenCount(rows, car, slot) <= 1
    ensures DayTotal(CloseOpen(rows, car, slot, now, cost, receipt), d)
         == DayTotal(rows, d) + (if d == DayOf(now) && OpenCount(rows, car, slot) == 1 then cost else 0.0)
  {
    if rows != [] {
      var n := |rows| - 1;
      var closed := CloseOpen(rows, car, slot, now, cost, receipt);
      assert closed[..n] == CloseOpen(rows[..n], car, slot, now, cost, receipt);
      DayTotalAfterClose(rows[..n], car, slot, now, cost, receipt, d);
    }
  }

  /** Inserting an open row changes no day's revenue. */
  lemma DayTotalAfterOpen(rows: seq<Session>, car: string, slot: int, now: int, d: int)
    ensures DayTotal(rows + [Opened(car, slot, now)], d) == DayTotal(rows, d)
  {
  }
}
