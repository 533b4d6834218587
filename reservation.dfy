/**
 * The reservation entity of src/resort/Reservation.java: stay length, the
 * room-rate table, the cost snapshot and the status that is derived from the
 * dates unless a manual status has been set. Dates are day numbers (days
 * since 1970-01-01) and the current date is the parameter `today`.
 */
module ReservationEntity {
  import opened Common

  const UPCOMING: string := "Upcoming"
  const ACTIVE: string := "Active"
  const COMPLETED: string := "Completed"
  const CHECKED_OUT: string := "Checked-Out"
  const CANCELLED: string := "Cancelled"

  const SINGLE: string := "Single"
  const DOUBLE: string := "Double"
  const SUITE: string := "Suite"

  /** The five status strings that the reports count. */
  predicate IsKnownStatus(s: string) {
    s == UPCOMING || s == ACTIVE || s == COMPLETED || s == CHECKED_OUT || s == CANCELLED
  }

  /**
   * `Math.max(1, ChronoUnit.DAYS.between(checkIn, checkOut))`: every stay is
   * charged at least one night, and a proper stay is charged its length.
   */
  function Nights(checkIn: int, checkOut: int): (n: int)
    ensures n >= 1
    ensures checkIn < checkOut ==> n == checkOut - checkIn
    ensures checkOut <= checkIn ==> n == 1
  {
    var days := checkOut - checkIn;
    if 1 >= days then 1 else days
  }

  /** The nightly rate: "Single" and "Double" are priced, any other room type costs 20000. */
  function Rate(roomType: string): int {
    if roomType == SINGLE then 8000 else if roomType == DOUBLE then 12000 else 20000
  }

  /**
   * `calculateCost`: nights times the nightly rate. The rate per night is
   * recovered exactly by dividing the cost by the nights, and the cost is
   * never below one night's rate.
   */
  function CalculateCost(roomType: string, checkIn: int, checkOut: int): (cost: int)
    ensures cost >= Rate(roomType) > 0
    ensures cost % Nights(checkIn, checkOut) == 0
    ensures cost / Nights(checkIn, checkOut) == Rate(roomType)
  {
    var n := Nights(checkIn, checkOut);
    var rate := Rate(roomType);
    ExactQuotient(n, rate);
    n * rate
  }

  /** Dividing a product by one factor gives the other back, with no remainder. */
  lemma ExactQuotient(n: int, rate: int)
    requires n >= 1 && rate >= 0
    ensures (n * rate) % n == 0 && (n * rate) / n == rate
    ensures n * rate >= rate
  {
    var q, r := (n * rate) / n, (n * rate) % n;
    assert n * rate == n * q + r && 0 <= r < n;
    if q < rate {
      MulMonotone(n, q + 1, rate);
      assert false;
    }
    if q > rate {
      MulMonotone(n, rate + 1, q);
      assert false;
    }
    MulMonotone(rate, 1, n);
  }

  /** Multiplying by a non-negative factor keeps the order. */
  lemma MulMonotone(c: int, a: int, b: int)
    requires c >= 0 && a <= b
    ensures c * a <= c * b
  {
    assert c * b - c * a == c * (b - a);
  }

  /** The status derived from the dates when no manual status is set. */
  function DerivedStatus(checkIn: int, checkOut: int, today: int): string {
    if today < checkIn then UPCOMING
    else if today >= checkOut then COMPLETED
    else ACTIVE
  }

  /** The order of the date-derived statuses over time. */
  function Stage(status: string): int {
    if status == UPCOMING then 0 else if status == ACTIVE then 1 else 2
  }

  class Reservation {
    const resNo: string
    const name: string
    const address: string
    const contact: string
    const roomType: string
    const checkIn: int
    const checkOut: int
    /** The cost is fixed when the reservation is built and never recomputed. */
    const totalCost: int := CalculateCost(roomType, checkIn, checkOut)
    /** "Checked-Out" or "Cancelled" once a manual action has been taken; None (Java null) before. */
    var manualStatus: Option<string>

    constructor (resNo: string, name: string, address: string, contact: string,
                 roomType: string, checkIn: int, checkOut: int)
      ensures this.resNo == resNo && this.name == name && this.address == address
      ensures this.contact == contact && this.roomType == roomType
      ensures this.checkIn == checkIn && this.checkOut == checkOut
      ensures manualStatus == None
    {
      this.resNo := resNo;
      this.name := name;
      this.address := address;
      this.contact := contact;
      this.roomType := roomType;
      this.checkIn := checkIn;
      this.checkOut := checkOut;
      manualStatus := None;
    }

    /** `getStatus`: the manual status if one is set, otherwise the date-derived status. */
    function GetStatus(today: int): string
      reads this
    {
      match manualStatus
      case Some(status) => status
      case None => DerivedStatus(checkIn, checkOut, today)
    }

    /** `setStatusManual`: overwrites the manual status and nothing else. */
    method SetStatusManual(status: string)
      modifies this
      ensures manualStatus == Some(status)
    {
      manualStatus := Some(status);
    }

    /** `isManualStatus`. */
    function IsManualStatus(): bool
      reads this
    {
      manualStatus.Some?
    }

    /** `getNights`. */
    function GetNights(): int {
      Nights(checkIn, checkOut)
    }
  }

  /** A manual status, once set, is the status on every day. */
  lemma ManualStatusOverrides(r: Reservation, today: int)
    requires r.IsManualStatus()
    ensures r.GetStatus(today) == r.manualStatus.value
  {
  }

  /**
   * The date rules in their priority order: Upcoming exactly before the
   * check-in day; otherwise Completed exactly from the check-out day on;
   * otherwise Active. The result is always one of the three.
   */
  lemma DerivedStatusCases(checkIn: int, checkOut: int, today: int)
    ensures DerivedStatus(checkIn, checkOut, today) == UPCOMING <==> today < checkIn
    ensures DerivedStatus(checkIn, checkOut, today) == COMPLETED <==> checkIn <= today && checkOut <= today
    ensures DerivedStatus(checkIn, checkOut, today) == ACTIVE <==> checkIn <= today < checkOut
    ensures IsKnownStatus(DerivedStatus(checkIn, checkOut, today))
  {
  }

  /**
   * Over time the derived status only moves forward, Upcoming then Active
   * then Completed; a proper stay is Upcoming the day before check-in,
   * Active on the check-in day and Completed on the check-out day.
   */
  lemma DerivedStatusMonotone(checkIn: int, checkOut: int, earlier: int, later: int)
    requires earlier <= later
    ensures Stage(DerivedStatus(checkIn, checkOut, earlier)) <= Stage(DerivedStatus(checkIn, checkOut, later))
    ensures checkIn < checkOut ==>
      && DerivedStatus(checkIn, checkOut, checkIn - 1) == UPCOMING
      && DerivedStatus(checkIn, checkOut, checkIn) == ACTIVE
      && DerivedStatus(checkIn, checkOut, checkOut) == COMPLETED
  {
  }

  /** Every reservation of `m` shows one of the five status strings on day `today`. */
  ghost predicate AllStatusesKnown(m: map<string, Reservation>, today: int)
    reads m.Values
  {
    forall k :: k in m ==> IsKnownStatus(m[k].GetStatus(today))
  }
}
