/**
 * The older single-file entry point src/resort/OceanResortSystem.java. Its
 * nested Reservation keeps a stored status string that starts as "Active"
 * and that nothing in the file ever changes; the map is a field of the
 * window itself. The save handler runs the same chain of checks as the
 * newer form, the delete handler asks for no confirmation, and the summary,
 * room analysis and dashboard compute the same folds as the newer panels.
 */
module LegacyResort {
  import opened Common
  import opened Text
  import opened ReservationEntity
  import Reports
  import NewReservation
  import ReservationStore

  /** The nested Reservation class of the legacy file. */
  class LegacyReservation {
    const resNo: string
    const name: string
    const address: string
    const contact: string
    const roomType: string
    const checkIn: int
    const checkOut: int
    /** The same cost rule as the newer entity, fixed at construction. */
    const totalCost: int := CalculateCost(roomType, checkIn, checkOut)
    /** The stored status; "Active" from construction on. */
    var status: string

    constructor (resNo: string, name: string, address: string, contact: string,
                 roomType: string, checkIn: int, checkOut: int)
      ensures this.resNo == resNo && this.name == name && this.address == address
      ensures this.contact == contact && this.roomType == roomType
      ensures this.checkIn == checkIn && this.checkOut == checkOut
      ensures status == ACTIVE
    {
      this.resNo := resNo;
      this.name := name;
      this.address := address;
      this.contact := contact;
      this.roomType := roomType;
      this.checkIn := checkIn;
      this.checkOut := checkOut;
      status := ACTIVE;
    }

    /** `setStatus`: overwrites the stored status and nothing else. No handler of the file calls it. */
    method SetStatus(status: string)
      modifies this
      ensures this.status == status
    {
      this.status := status;
    }

    /** `getNights`: the same rule as the newer entity. */
    function GetNights(): int {
      Nights(checkIn, checkOut)
    }
  }

  /** Every stored status is "Active". */
  ghost predicate AllActive(m: map<string, LegacyReservation>)
    reads m.Values
  {
    forall k :: k in m ==> m[k].status == ACTIVE
  }

  /** The keys whose stored status is "Active". */
  ghost function ActiveKeys(m: map<string, LegacyReservation>): set<string>
    reads m.Values
  {
    set k | k in m && m[k].status == ACTIVE
  }

  /** What the room reports read of the legacy reservations. */
  function LegacyBookings(m: map<string, LegacyReservation>): map<string, Reports.Booking> {
    map k | k in m :: Reports.Booking(m[k].roomType, m[k].totalCost)
  }

  /** The figures of the summary report and of the dashboard. */
  datatype LegacyStats = LegacyStats(totalReservations: int, activeReservations: int, totalRevenue: int)

  /**
   * The summary report's and `updateDashboardStats`'s figures: the number
   * of reservations, the number with status "Active" and the sum of all
   * costs. The active count is the number of keys whose stored status is
   * "Active"; while every status is "Active", as no handler changes it, it
   * is the total.
   */
  ghost function SummaryFigures(m: map<string, LegacyReservation>): (s: LegacyStats)
    reads m.Values
    ensures s.totalReservations == |m|
    ensures s.activeReservations == |ActiveKeys(m)|
    ensures 0 <= s.activeReservations <= s.totalReservations
    ensures s.totalRevenue == Reports.TotalRevenue(LegacyBookings(m))
    ensures AllActive(m) ==> s.activeReservations == s.totalReservations
  {
    var active := ActiveKeys(m);
    assert m.Keys == active + (m.Keys - active);
    assert AllActive(m) ==> active == m.Keys;
    LegacyStats(|m|, |active|, Reports.TotalRevenue(LegacyBookings(m)))
  }

  /**
   * The "Bookings by Room Type" list of the summary report: one entry per
   * room type that occurs, holding its number of bookings; the entries add
   * up to the number of reservations.
   */
  method SummaryRoomCounts(m: map<string, LegacyReservation>) returns (roomCounts: map<string, int>)
    ensures roomCounts.Keys == Reports.RoomTypes(LegacyBookings(m), m.Keys)
    ensures forall t :: t in roomCounts ==> roomCounts[t] == |Reports.OfRoom(LegacyBookings(m), m.Keys, t)|
    ensures Reports.Sum(roomCounts, roomCounts.Keys) == |m|
  {
    var b := LegacyBookings(m);
    assert b.Keys == m.Keys;
    roomCounts := Reports.CountBookingsByRoom(b);
  }

  /**
   * ROOM ANALYSIS: one row for each of Single, Double and Suite, with the
   * average guarded against a room type with no bookings; every average of
   * a booked room type is at least its nightly rate.
   */
  method RoomAnalysis(m: map<string, LegacyReservation>) returns (rows: seq<Reports.RoomRow>)
    ensures |rows| == 3
    ensures forall i :: 0 <= i < 3 ==> rows[i] == Reports.RoomLine(LegacyBookings(m), Reports.ROOM_TYPES[i])
    ensures forall i :: 0 <= i < 3 && rows[i].bookings == 0 ==> rows[i].average == 0
    ensures forall i :: 0 <= i < 3 && rows[i].bookings > 0 ==> rows[i].average >= Rate(Reports.ROOM_TYPES[i])
  {
    var b := LegacyBookings(m);
    rows := Reports.GenerateRoomAnalysis(b);
    assert Reports.CostsAtLeastRates(b);
    forall i | 0 <= i < 3
      ensures rows[i].bookings == 0 ==> rows[i].average == 0
      ensures rows[i].bookings > 0 ==> rows[i].average >= Rate(Reports.ROOM_TYPES[i])
    {
      Reports.RoomAverageGuard(b, Reports.ROOM_TYPES[i]);
      if rows[i].bookings > 0 {
        Reports.RoomAverageAtLeastRate(b, Reports.ROOM_TYPES[i]);
      }
    }
  }

  /** The window of the legacy file, reduced to its map. */
  class LegacySystem {
    var reservations: map<string, LegacyReservation>

    /** Start-up: the stored map, or an empty map when the file is missing or unreadable. */
    constructor (file: DataFile<LegacyReservation>)
      ensures file.Readable? ==> reservations == file.contents
      ensures !file.Readable? ==> reservations == map[]
    {
      reservations := ReservationStore.LoadedEntries(file);
    }

    /**
     * SAVE: the same checks in the same order as the newer form; an accepted
     * form adds one reservation, "Active", under the trimmed id, and changes
     * no other entry.
     */
    method Save(form: NewReservation.Form, written: bool) returns (result: NewReservation.SaveResult)
      modifies this
      ensures NewReservation.FirstRejection(form, old(reservations).Keys).Some? ==>
        result == NewReservation.Rejected(NewReservation.FirstRejection(form, old(reservations).Keys).value)
        && reservations == old(reservations)
      ensures NewReservation.FirstRejection(form, old(reservations).Keys).None? ==>
        var id := Trim(form.resNo);
        && result == NewReservation.Saved(written)
        && id !in old(reservations)
        && reservations.Keys == old(reservations).Keys + {id}
        && (forall k :: k in old(reservations) ==> reservations[k] == old(reservations)[k])
        && var r := reservations[id];
        && fresh(r)
        && r.resNo == id && r.name == Trim(form.name) && r.address == Trim(form.address)
        && r.contact == Trim(form.contact) && r.roomType == form.roomType
        && r.checkIn == form.checkIn && r.checkOut == form.checkOut && r.status == ACTIVE
      ensures old(AllActive(reservations)) ==> AllActive(reservations)
    {
      var rejection := NewReservation.FirstRejection(form, reservations.Keys);
      if rejection.Some? {
        return NewReservation.Rejected(rejection.value);
      }
      var r := new LegacyReservation(Trim(form.resNo), Trim(form.name), Trim(form.address), Trim(form.contact),
                                     form.roomType, form.checkIn, form.checkOut);
      reservations := reservations[r.resNo := r];
      result := NewReservation.Saved(written);
    }

    /** DELETE: no confirmation and no status check; the selected id is removed and nothing else. */
    method Delete(selected: Option<string>, written: bool) returns (outcome: Outcome<()>)
      modifies this
      ensures selected.None? ==> outcome == NothingSelected && reservations == old(reservations)
      ensures selected.Some? ==>
        && outcome == Done(written)
        && selected.value !in reservations
        && reservations.Keys == old(reservations).Keys - {selected.value}
        && (forall k :: k in reservations ==> reservations[k] == old(reservations)[k])
      ensures old(AllActive(reservations)) ==> AllActive(reservations)
    {
      if selected.None? {
        return NothingSelected;
      }
      reservations := reservations - {selected.value};
      outcome := Done(written);
    }
  }
}
