/**
 * The in-memory slot table `slots` of saniya.py: slot numbers 1..20, each free
 * (`None`) or holding the car number parked there. This module states, as
 * functions on table values, which slot a park or a checkout picks and what
 * `load_parked_slots` makes of a table.
 */
module SlotTable {
  import opened Wrappers
  import opened Sessions

  const Capacity := 20

  type Table = map<int, Option<string>>

  /** Exactly the slots 1..Capacity are present (the dict built at start-up). */
  ghost predicate WellFormed(t: Table)
  {
    forall s :: s in t <==> 1 <= s <= Capacity
  }

  function EmptyUpTo(n: nat): (t: Table)
    ensures forall s :: s in t <==> 1 <= s <= n
    ensures forall s :: s in t ==> t[s].None?
  {
    if n == 0 then map[] else EmptyUpTo(n - 1)[n := None]
  }

  /** The table at start-up: every slot free. */
  function Empty(): (t: Table)
    ensures WellFormed(t)
    ensures forall s :: s in t ==> t[s].None?
  {
    EmptyUpTo(Capacity)
  }

  /** Python's `details and car_number == details`: an empty car number is falsy and never matches. */
  predicate Holds(occupant: Option<string>, car: string)
  {
    occupant.Some? && occupant.value != "" && occupant.value == car
  }

  function FreeFrom(t: Table, from: int): (r: Option<int>)
    requires WellFormed(t) && 1 <= from <= Capacity + 1
    decreases Capacity + 1 - from
    ensures r.Some? ==> from <= r.value <= Capacity && t[r.value].None?
    ensures r.Some? ==> forall s :: from <= s < r.value ==> t[s].Some?
    ensures r.None? ==> forall s :: from <= s <= Capacity ==> t[s].Some?
  {
    if from > Capacity then None
    else if t[from].None? then Some(from)
    else FreeFrom(t, from + 1)
  }

  /** The slot `park_car` gives out: the lowest-numbered free one, or none when all are taken. */
  function LowestFree(t: Table): (r: Option<int>)
    requires WellFormed(t)
    ensures r.Some? ==> 1 <= r.value <= Capacity && t[r.value].None?
    ensures r.Some? ==> forall s :: 1 <= s < r.value ==> t[s].Some?
    ensures r.None? <==> forall s :: 1 <= s <= Capacity ==> t[s].Some?
  {
    FreeFrom(t, 1)
  }

  function HolderFrom(t: Table, car: string, from: int): (r: Option<int>)
    requires WellFormed(t) && 1 <= from <= Capacity + 1
    decreases Capacity + 1 - from
    ensures r.Some? ==> from <= r.value <= Capacity && Holds(t[r.value], car)
    ensures r.Some? ==> forall s :: from <= s < r.value ==> !Holds(t[s], car)
    ensures r.None? ==> forall s :: from <= s <= Capacity ==> !Holds(t[s], car)
  {
    if from > Capacity then None
    else if Holds(t[from], car) then Some(from)
    else HolderFrom(t, car, from + 1)
  }

  /**
   * The slot `checkout_car` settles on: the lowest-numbered slot holding the
   * car number. An empty car number is never found.
   */
  function LowestHolding(t: Table, car: string): (r: Option<int>)
    requires WellFormed(t)
    ensures r.Some? ==> 1 <= r.value <= Capacity && t[r.value] == Some(car)
    ensures r.Some? ==> forall s :: 1 <= s < r.value ==> t[s] != Some(car)
    ensures r.None? <==> forall s :: 1 <= s <= Capacity ==> !Holds(t[s], car)
    ensures car == "" ==> r.None?
  {
    HolderFrom(t, car, 1)
  }

  /** Some open row of `rows` names slot `s`. */
  ghost predicate Mentions(rows: seq<Session>, s: int)
  {
    exists i :: 0 <= i < |rows| && Active(rows[i]) && rows[i].slot == s
  }

  /** Row `i` is open and no later open row names its slot. */
  ghost predicate LastOpenAt(rows: seq<Session>, i: int)
  {
    && 0 <= i < |rows|
    && Active(rows[i])
    && forall j :: i < j < |rows| && Active(rows[j]) ==> rows[j].slot != rows[i].slot
  }

  /** One step of `load_parked_slots`: an open row writes its car number into its slot. */
  function Fill(t: Table, r: Session): Table
  {
    if Active(r) then t[r.slot := Some(r.car)] else t
  }

  /**
   * `load_parked_slots`: the open rows, in table order, each write their car
   * number into their slot. The query has no ORDER BY; the model takes the
   * rows in insertion order.
   */
  function Reconciled(t: Table, rows: seq<Session>): Table
  {
    if rows == [] then t
    else Fill(Reconciled(t, rows[..|rows| - 1]), rows[|rows| - 1])
  }

  lemma MentionsSplit(rows: seq<Session>, s: int)
    requires rows != []
    ensures Mentions(rows, s) <==>
              Mentions(rows[..|rows| - 1], s) || (Active(rows[|rows| - 1]) && rows[|rows| - 1].slot == s)
  {
  }

  /** Reconciliation adds to the table only the slots that open rows name. */
  lemma {:induction false} ReconciledDomain(t: Table, rows: seq<Session>, s: int)
    ensures s in Reconciled(t, rows) <==> s in t || Mentions(rows, s)
  {
    if rows != [] {
      ReconciledDomain(t, rows[..|rows| - 1], s);
      MentionsSplit(rows, s);
    }
  }

  /** Reconciliation only fills: a slot that was taken is still taken. */
  lemma {:induction false} ReconcileNeverFrees(t: Table, rows: seq<Session>, s: int)
    requires s in t && t[s].Some?
    ensures s in Reconciled(t, rows) && Reconciled(t, rows)[s].Some?
  {
    if rows != [] {
      ReconcileNeverFrees(t, rows[..|rows| - 1], s);
    }
  }

  /** A slot no open row names keeps whatever it held. */
  lemma {:induction false} ReconcileKeepsUnnamed(t: Table, rows: seq<Session>, s: int)
    requires s in t && !Mentions(rows, s)
    ensures s in Reconciled(t, rows) && Reconciled(t, rows)[s] == t[s]
  {
    if rows != [] {
      MentionsSplit(rows, s);
      ReconcileKeepsUnnamed(t, rows[..|rows| - 1], s);
    }
  }

  /** A slot named by open rows ends with the car number of the last of them. */
  lemma {:induction false} ReconcileLastWins(t: Table, rows: seq<Session>, i: int)
    requires LastOpenAt(rows, i)
    ensures rows[i].slot in Reconciled(t, rows) && Reconciled(t, rows)[rows[i].slot] == Some(rows[i].car)
  {
    var n := |rows| - 1;
    if i < n {
      var init := rows[..n];
      assert init[i] == rows[i];
      assert forall j :: i < j < n ==> init[j] == rows[j];
      assert LastOpenAt(init, i);
      ReconcileLastWins(t, init, i);
    }
  }
}
