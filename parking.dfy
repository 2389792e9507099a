/**
 * The parking engine of saniya.py: the slot table together with the two
 * tables it is kept in step with, `user_info` (sessions) and `daily_revenue`,
 * and the running `daily_revenue` total. The database is modelled by the
 * values it holds; `park_car`, `checkout_car` and `load_parked_slots` become
 * methods that update them in place.
 */
module Parking {
  import opened Wrappers
  import opened Sessions
  import opened SlotTable
  import opened Tariff
  import opened Ledger

  /** Every stored row names a slot of the table (rows are only inserted by a park). */
  ghost predicate RowsInRange(rows: seq<Session>)
  {
    forall i :: 0 <= i < |rows| ==> 1 <= rows[i].slot <= Capacity
  }

  /**
   * Table and sessions agree: every open row's car occupies its slot, and an
   * occupied slot has exactly one open session for its occupant. So a slot is
   * taken exactly when one open session names it.
   */
  ghost predicate Coherent(t: Table, rows: seq<Session>)
  {
    && (forall i :: 0 <= i < |rows| && Active(rows[i]) ==> rows[i].slot in t && t[rows[i].slot] == Some(rows[i].car))
    && (forall s {:trigger OpenCount(rows, t[s].value, s)} ::
          s in t && t[s].Some? ==> OpenCount(rows, t[s].value, s) == 1)
  }

  /** Each day's booked revenue is the sum of the costs of the sessions checked out that day. */
  ghost predicate LedgerAgrees(revenue: Revenue, rows: seq<Session>)
  {
    forall d :: Amount(revenue, d) == DayTotal(rows, d)
  }

  /** A park into the lowest free slot keeps table and sessions in agreement. */
  lemma ParkKeepsCoherent(t: Table, rows: seq<Session>, car: string, now: int)
    requires WellFormed(t) && Coherent(t, rows) && LowestFree(t).Some?
    ensures Coherent(t[LowestFree(t).value := Some(car)], rows + [Opened(car, LowestFree(t).value, now)])
  {
    var s := LowestFree(t).value;
    var t', rows' := t[s := Some(car)], rows + [Opened(car, s, now)];
    var n := |rows|;
    assert rows'[..n] == rows;
    assert forall i :: 0 <= i < n && Active(rows[i]) ==> rows[i].slot != s;
    forall s' | s' in t' && t'[s'].Some?
      ensures OpenCount(rows', t'[s'].value, s') == 1
    {
      if s' == s {
        OpenCountZero(rows, car, s);
      }
    }
  }

  /** Freeing the car's slot and closing its open row keeps table and sessions in agreement. */
  lemma CheckoutKeepsCoherent(t: Table, rows: seq<Session>, car: string, s: int, now: int, cost: real,
                              receipt: string)
    requires Coherent(t, rows) && s in t && t[s] == Some(car)
    ensures Coherent(t[s := None], CloseOpen(rows, car, s, now, cost, receipt))
  {
    var t', rows' := t[s := None], CloseOpen(rows, car, s, now, cost, receipt);
    assert forall i :: 0 <= i < |rows| && Active(rows'[i]) ==> Active(rows[i]) && rows'[i] == rows[i];
    forall s' | s' in t' && t'[s'].Some?
      ensures OpenCount(rows', t'[s'].value, s') == 1
    {
      OpenCountAfterClose(rows, car, s, now, cost, receipt, t'[s'].value, s');
    }
  }

  /** While table and sessions agree, the session lookup of an occupied slot succeeds. */
  lemma OccupiedIsFound(t: Table, rows: seq<Session>, car: string, s: int)
    requires Coherent(t, rows) && s in t && t[s] == Some(car)
    ensures FirstOpen(rows, car, s).Some?
  {
    OpenCountZero(rows, car, s);
  }

  /** A checkout books its cost on the day of the check-out, so the ledger stays in agreement. */
  lemma CheckoutKeepsLedger(t: Table, rows: seq<Session>, revenue: Revenue, car: string, s: int, now: int,
                            cost: real, receipt: string)
    requires Coherent(t, rows) && LedgerAgrees(revenue, rows) && s in t && t[s] == Some(car)
    ensures LedgerAgrees(Record(revenue, DayOf(now), cost), CloseOpen(rows, car, s, now, cost, receipt))
  {
    forall d
      ensures Amount(Record(revenue, DayOf(now), cost), d) == DayTotal(CloseOpen(rows, car, s, now, cost, receipt), d)
    {
      AmountAfterRecord(revenue, DayOf(now), cost, d);
      DayTotalAfterClose(rows, car, s, now, cost, receipt, d);
    }
  }

  /** A park books nothing, so the ledger stays in agreement. */
  lemma ParkKeepsLedger(rows: seq<Session>, revenue: Revenue, car: string, s: int, now: int)
    requires LedgerAgrees(revenue, rows)
    ensures LedgerAgrees(revenue, rows + [Opened(car, s, now)])
  {
  }

  /** Of the open rows that name a slot, one is the last. */
  lemma {:induction false} LastOpenExists(rows: seq<Session>, s: int)
    requires Mentions(rows, s)
    ensures exists i :: LastOpenAt(rows, i) && rows[i].slot == s
  {
    var n := |rows| - 1;
    if Active(rows[n]) && rows[n].slot == s {
      assert LastOpenAt(rows, n);
    } else {
      var init := rows[..n];
      MentionsSplit(rows, s);
      LastOpenExists(init, s);
      var i :| LastOpenAt(init, i) && init[i].slot == s;
      assert forall j :: 0 <= j < n ==> init[j] == rows[j];
      assert LastOpenAt(rows, i);
    }
  }

  /** On a table that already agrees with the sessions, reconciliation changes nothing. */
  lemma ReconcileIdleWhenCoherent(t: Table, rows: seq<Session>)
    requires WellFormed(t) && Coherent(t, rows)
    ensures Reconciled(t, rows) == t
  {
    var r := Reconciled(t, rows);
    forall s ensures s in r <==> s in t {
      ReconciledDomain(t, rows, s);
    }
    forall s | s in t ensures r[s] == t[s] {
      if Mentions(rows, s) {
        LastOpenExists(rows, s);
        var i :| LastOpenAt(rows, i) && rows[i].slot == s;
        ReconcileLastWins(t, rows, i);
      } else {
        ReconcileKeepsUnnamed(t, rows, s);
      }
    }
  }

  /** At start-up, reconciling a free table against sessions with unique open slots makes them agree. */
  lemma ReconcileFromEmpty(rows: seq<Session>)
    requires RowsInRange(rows) && UniqueOpenSlots(rows)
    ensures WellFormed(Reconciled(Empty(), rows)) && Coherent(Reconciled(Empty(), rows), rows)
  {
    var t := Empty();
    var r := Reconciled(t, rows);
    forall s ensures s in r <==> 1 <= s <= Capacity {
      ReconciledDomain(t, rows, s);
    }
    forall i | 0 <= i < |rows| && Active(rows[i])
      ensures rows[i].slot in r && r[rows[i].slot] == Some(rows[i].car)
    {
      assert LastOpenAt(rows, i);
      ReconcileLastWins(t, rows, i);
    }
    forall s | s in r && r[s].Some?
      ensures OpenCount(rows, r[s].value, s) == 1
    {
      if !Mentions(rows, s) {
        ReconcileKeepsUnnamed(t, rows, s);
        assert false;
      }
      var i :| 0 <= i < |rows| && Active(rows[i]) && rows[i].slot == s;
      assert LastOpenAt(rows, i);
      ReconcileLastWins(t, rows, i);
      OpenCountAtMostOne(rows, r[s].value, s);
      OpenCountZero(rows, r[s].value, s);
      assert OpenFor(rows[i], r[s].value, s);
    }
  }

  /** Open sessions in slots 3 and 7 survive a restart, and the next car still gets slot 1. */
  lemma ReconcileScenario(a: string, b: string, t3: int, t7: int)
    ensures
      var rows := [Opened(a, 3, t3), Opened(b, 7, t7)];
      var r := Reconciled(Empty(), rows);
      && WellFormed(r) && r[3] == Some(a) && r[7] == Some(b)
      && LowestFree(r) == Some(1)
  {
    var rows := [Opened(a, 3, t3), Opened(b, 7, t7)];
    assert RowsInRange(rows) && UniqueOpenSlots(rows);
    ReconcileFromEmpty(rows);
    assert LastOpenAt(rows, 0) && LastOpenAt(rows, 1);
    ReconcileLastWins(Empty(), rows, 0);
    ReconcileLastWins(Empty(), rows, 1);
    assert !Mentions(rows, 1);
    ReconcileKeepsUnnamed(Empty(), rows, 1);
  }

  datatype ParkOutcome = Allotted(slot: int) | NoSlotsAvailable

  datatype CheckoutOutcome =
    | CheckedOut(slot: int, hours: int, minutes: int, cost: real, receipt: string)
    | NotInSystem   // the slot holds the car but no open session was found
    | CarNotFound   // no slot holds the car

  const ReceiptDir := "generated_pdfs"

  function DigitChar(d: nat): char
    requires d < 10
  {
    "0123456789"[d]
  }

  function Decimal(n: nat): string
  {
    if n < 10 then [DigitChar(n)] else Decimal(n / 10) + [DigitChar(n % 10)]
  }

  /** Where the receipt of a checkout is written; the document itself is not modelled. */
  function ReceiptPath(car: string, slot: nat): string
  {
    ReceiptDir + "/receipt_" + car + "_" + Decimal(slot) + ".pdf"
  }

  class ParkingLot {
    var slots: Table            // the global `slots`
    var rows: seq<Session>      // the `user_info` table
    var revenue: Revenue        // the `daily_revenue` table
    var dailyRevenue: real      // the global `daily_revenue`, summed since start-up

    ghost predicate Valid()
      reads this
    {
      WellFormed(slots) && RowsInRange(rows)
    }

    /** The engine's invariant: table, sessions and ledger tell the same story. */
    ghost predicate Consistent()
      reads this
    {
      Coherent(slots, rows) && LedgerAgrees(revenue, rows)
    }

    /** Process start: every slot free, no revenue summed yet, over the stored tables. */
    constructor (stored: seq<Session>, booked: Revenue)
      requires RowsInRange(stored)
      ensures Valid()
      ensures slots == Empty() && rows == stored && revenue == booked && dailyRevenue == 0.0
    {
      slots := Empty();
      rows := stored;
      revenue := booked;
      dailyRevenue := 0.0;
    }

    /** `load_parked_slots`: write every open session's car number into its slot. */
    method Reconcile()
      requires Valid()
      modifies this
      ensures Valid()
      ensures slots == Reconciled(old(slots), rows)
      ensures rows == old(rows) && revenue == old(revenue) && dailyRevenue == old(dailyRevenue)
      ensures old(Consistent()) ==> slots == old(slots)
      ensures old(slots) == Empty() && UniqueOpenSlots(rows) ==> Coherent(slots, rows)
    {
      var i := 0;
      while i < |rows|
        invariant 0 <= i <= |rows|
        invariant slots == Reconciled(old(slots), rows[..i])
        invariant WellFormed(slots)
        invariant rows == old(rows) && revenue == old(revenue) && dailyRevenue == old(dailyRevenue)
      {
        assert rows[..i + 1][..i] == rows[..i];
        if Active(rows[i]) {
          slots := slots[rows[i].slot := Some(rows[i].car)];
        }
        i := i + 1;
      }
      assert rows[..i] == rows;
      if old(Consistent()) {
        ReconcileIdleWhenCoherent(old(slots), rows);
      }
      if old(slots) == Empty() && UniqueOpenSlots(rows) {
        ReconcileFromEmpty(rows);
      }
    }

    /** `park_car`: give the car the lowest-numbered free slot and open a session for it. */
    method Park(car: string, now: int) returns (out: ParkOutcome)
      requires Valid()
      modifies this
      ensures Valid()
      ensures match LowestFree(old(slots))
        case Some(s) =>
          && out == Allotted(s)
          && slots == old(slots)[s := Some(car)]
          && rows == old(rows) + [Opened(car, s, now)]
        case None =>
          out == NoSlotsAvailable && slots == old(slots) && rows == old(rows)
      ensures revenue == old(revenue) && dailyRevenue == old(dailyRevenue)
      ensures old(Consistent()) ==> Consistent()
    {
      var s := 1;
      while s <= Capacity
        invariant 1 <= s <= Capacity + 1
        invariant forall k :: 1 <= k < s ==> slots[k].Some?
        invariant slots == old(slots) && rows == old(rows)
        invariant revenue == old(revenue) && dailyRevenue == old(dailyRevenue)
      {
        if slots[s].None? {
          assert LowestFree(slots) == Some(s);
          assert Consistent() ==>
              Coherent(slots[s := Some(car)], rows + [Opened(car, s, now)])
              && LedgerAgrees(revenue, rows + [Opened(car, s, now)]) by {
            if Consistent() {
              ParkKeepsCoherent(slots, rows, car, now);
              ParkKeepsLedger(rows, revenue, car, s, now);
            }
          }
          slots := slots[s := Some(car)];
          rows := rows + [Opened(car, s, now)];
          return Allotted(s);
        }
        s := s + 1;
      }
      return NoSlotsAvailable;
    }

    /**
     * `checkout_car`: find the lowest slot holding the car, look up its open
     * session, bill the stay, close the session, book the revenue and free
     * the slot. Without a holding slot, or without an open session for it,
     * nothing changes.
     */
    method Checkout(car: string, now: int) returns (out: CheckoutOutcome)
      requires Valid()
      modifies this
      ensures Valid()
      ensures match LowestHolding(old(slots), car)
        case None =>
          out == CarNotFound && unchanged(this)
        case Some(s) =>
          match FirstOpen(old(rows), car, s)
          case None =>
            out == NotInSystem && unchanged(this)
          case Some(k) =>
            var elapsed := now - old(rows)[k].checkIn;
            var cost := Fee(elapsed);
            var receipt := ReceiptPath(car, s);
            && out == CheckedOut(s, WholeHours(elapsed), LeftoverMinutes(elapsed), cost, receipt)
            && slots == old(slots)[s := None]
            && rows == CloseOpen(old(rows), car, s, now, cost, receipt)
            && revenue == Record(old(revenue), DayOf(now), cost)
            && dailyRevenue == old(dailyRevenue) + cost
      ensures old(Consistent()) ==> Consistent() && !out.NotInSystem?
    {
      var s := 1;
      while s <= Capacity
        invariant 1 <= s <= Capacity + 1
        invariant forall k :: 1 <= k < s ==> !Holds(slots[k], car)
        invariant unchanged(this)
      {
        if Holds(slots[s], car) {
          assert LowestHolding(slots, car) == Some(s);
          assert Consistent() ==> FirstOpen(rows, car, s).Some? by {
            if Consistent() {
              OccupiedIsFound(slots, rows, car, s);
            }
          }
          var found := FirstOpen(rows, car, s);
          if found.None? {
            return NotInSystem;
          }
          out := Settle(car, s, found.value, now);
          return;
        }
        s := s + 1;
      }
      return CarNotFound;
    }

    /**
     * The second half of `checkout_car`, once the car's slot `s` and its open
     * session `k` are known: bill the stay, close the session, book the
     * revenue and free the slot.
     */
    method Settle(car: string, s: int, k: nat, now: int) returns (out: CheckoutOutcome)
      requires Valid() && s in slots && slots[s] == Some(car) && FirstOpen(rows, car, s) == Some(k)
      modifies this
      ensures Valid()
      ensures
        var elapsed := now - old(rows)[k].checkIn;
        var cost := Fee(elapsed);
        var receipt := ReceiptPath(car, s);
        && out == CheckedOut(s, WholeHours(elapsed), LeftoverMinutes(elapsed), cost, receipt)
        && slots == old(slots)[s := None]
        && rows == CloseOpen(old(rows), car, s, now, cost, receipt)
        && revenue == Record(old(revenue), DayOf(now), cost)
        && dailyRevenue == old(dailyRevenue) + cost
      ensures old(Consistent()) ==> Consistent()
    {
      var elapsed := now - rows[k].checkIn;
      var hours, minutes := WholeHours(elapsed), LeftoverMinutes(elapsed);
      var cost := Cost(hours as real + minutes as real / 60.0);
      assert cost == Fee(elapsed);
      dailyRevenue := dailyRevenue + cost;
      var receipt := ReceiptPath(car, s);
      assert old(Consistent()) ==>
          Coherent(slots[s := None], CloseOpen(rows, car, s, now, cost, receipt))
          && LedgerAgrees(Record(revenue, DayOf(now), cost), CloseOpen(rows, car, s, now, cost, receipt)) by {
        if old(Consistent()) {
          CheckoutKeepsCoherent(slots, rows, car, s, now, cost, receipt);
          CheckoutKeepsLedger(slots, rows, revenue, car, s, now, cost, receipt);
        }
      }
      rows := CloseOpen(rows, car, s, now, cost, receipt);
      revenue := Record(revenue, DayOf(now), cost);
      slots := slots[s := None];
      return CheckedOut(s, hours, minutes, cost, receipt);
    }
  }
}
