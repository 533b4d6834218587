/**
 * The `HashMap<String, Reservation>` that the main window, the reservation
 * form, the dashboard and the reports all hold by reference, and the two
 * facts about its contents that every command of the application keeps.
 */
module ReservationStore {
  import opened Common
  import opened ReservationEntity

  /** The shared map from reservation id to reservation. */
  class ReservationMap {
    var entries: map<string, Reservation>

    constructor (entries: map<string, Reservation>)
      ensures this.entries == entries
    {
      this.entries := entries;
    }
  }

  /** Every reservation is stored under its own id. */
  ghost predicate KeyedById(m: map<string, Reservation>) {
    forall k :: k in m ==> m[k].resNo == k
  }

  /** A map keyed by id never holds one reservation object under two keys. */
  lemma KeyedByIdNoSharing(m: map<string, Reservation>, j: string, k: string)
    requires KeyedById(m) && j in m && k in m && j != k
    ensures m[j] != m[k]
  {
  }

  /** The only manual statuses the application ever sets: "Checked-Out" and "Cancelled". */
  ghost predicate ManualStatusesValid(m: map<string, Reservation>)
    reads m.Values
  {
    forall k :: k in m ==> m[k].manualStatus == None || m[k].manualStatus == Some(CHECKED_OUT)
                           || m[k].manualStatus == Some(CANCELLED)
  }

  /**
   * While the manual statuses are the two the application sets, every
   * reservation shows one of the five statuses the reports count, on every
   * day.
   */
  lemma ValidStatusesAreKnown(m: map<string, Reservation>, today: int)
    requires ManualStatusesValid(m)
    ensures AllStatusesKnown(m, today)
  {
    forall k | k in m
      ensures IsKnownStatus(m[k].GetStatus(today))
    {
      DerivedStatusCases(m[k].checkIn, m[k].checkOut, today);
    }
  }

  /**
   * The map the application starts with: the stored map when the data file
   * exists and can be read, and an empty map when it is missing or any read
   * error occurs.
   */
  function LoadedEntries<T>(file: DataFile<T>): (m: map<string, T>)
    ensures file.Readable? ==> m == file.contents
    ensures !file.Readable? ==> m == map[]
  {
    match file
    case Readable(contents) => contents
    case _ => map[]
  }
}
