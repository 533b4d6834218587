/**
 * The SAVE button of src/resort/ReservationPanel.java: an ordered chain of
 * checks, each of which ends the handler with its own message, and then
 * the insert into the shared map. The dates are the form's dates already
 * converted to day numbers; whether the data file could be written after
 * the insert is the boolean `written`.
 */
module NewReservation {
  import opened Common
  import opened Text
  import opened ReservationEntity
  import opened ReservationStore

  /** The contents of the form when SAVE is pressed. */
  datatype Form = Form(resNo: string, name: string, address: string, contact: string,
                       roomType: string, checkIn: int, checkOut: int)

  /** Why the form is not saved. */
  datatype Rejection = IdRequired | NameRequired | ContactRequired | DuplicateId | CheckOutNotAfterCheckIn

  datatype SaveResult = Rejected(reason: Rejection) | Saved(written: bool)

  /** The checks in the handler's order; the first that fails is the one reported. */
  function FirstRejection(form: Form, ids: set<string>): Option<Rejection> {
    if IsBlank(form.resNo) then Some(IdRequired)
    else if IsBlank(form.name) then Some(NameRequired)
    else if IsBlank(form.contact) then Some(ContactRequired)
    else if Trim(form.resNo) in ids then Some(DuplicateId)
    else if !(form.checkOut > form.checkIn) then Some(CheckOutNotAfterCheckIn)
    else None
  }

  /**
   * Each rejection is reported exactly when its own check fails and every
   * earlier check passed; a form is accepted exactly when id, name and
   * contact are not blank, the trimmed id is new and check-out is after
   * check-in.
   */
  lemma RejectionOrder(form: Form, ids: set<string>)
    ensures FirstRejection(form, ids) == Some(IdRequired) <==> IsBlank(form.resNo)
    ensures FirstRejection(form, ids) == Some(NameRequired) <==> !IsBlank(form.resNo) && IsBlank(form.name)
    ensures FirstRejection(form, ids) == Some(ContactRequired) <==>
      !IsBlank(form.resNo) && !IsBlank(form.name) && IsBlank(form.contact)
    ensures FirstRejection(form, ids) == Some(DuplicateId) <==>
      !IsBlank(form.resNo) && !IsBlank(form.name) && !IsBlank(form.contact) && Trim(form.resNo) in ids
    ensures FirstRejection(form, ids) == Some(CheckOutNotAfterCheckIn) <==>
      !IsBlank(form.resNo) && !IsBlank(form.name) && !IsBlank(form.contact) && Trim(form.resNo) !in ids
      && form.checkOut <= form.checkIn
    ensures FirstRejection(form, ids) == None <==>
      !IsBlank(form.resNo) && !IsBlank(form.name) && !IsBlank(form.contact) && Trim(form.resNo) !in ids
      && form.checkIn < form.checkOut
  {
  }

  /** The address is never checked: any address, empty included, leaves the verdict as it was. */
  lemma AddressNeverChecked(form: Form, ids: set<string>, address: string)
    ensures FirstRejection(form.(address := address), ids) == FirstRejection(form, ids)
  {
  }

  /**
   * An accepted form has a non-empty trimmed id, is charged its exact
   * number of nights, and is Upcoming before its check-in day and Active on
   * it.
   */
  lemma AcceptedFormFacts(form: Form, ids: set<string>)
    requires FirstRejection(form, ids) == None
    ensures Trim(form.resNo) != [] && Trim(form.resNo) !in ids
    ensures Nights(form.checkIn, form.checkOut) == form.checkOut - form.checkIn
    ensures CalculateCost(form.roomType, form.checkIn, form.checkOut) == (form.checkOut - form.checkIn) * Rate(form.roomType)
    ensures DerivedStatus(form.checkIn, form.checkOut, form.checkIn - 1) == UPCOMING
    ensures DerivedStatus(form.checkIn, form.checkOut, form.checkIn) == ACTIVE
  {
  }

  /** `after` is `before` with one more entry, under the new key `id`; every other entry is kept. */
  ghost predicate AddedOnly(before: map<string, Reservation>, after: map<string, Reservation>, id: string) {
    && id !in before
    && after.Keys == before.Keys + {id}
    && forall k :: k in before ==> after[k] == before[k]
  }

  /** Adding one entry grows the map by exactly one. */
  lemma AddedOnlyGrowsByOne(before: map<string, Reservation>, after: map<string, Reservation>, id: string)
    requires AddedOnly(before, after, id)
    ensures |after| == |before| + 1
  {
    assert after.Keys == before.Keys + {id};
  }

  class ReservationPanel {
    /** The map shared with the main window. */
    const reservations: ReservationMap

    constructor (reservations: ReservationMap)
      ensures this.reservations == reservations
    {
      this.reservations := reservations;
    }

    /**
     * SAVE: a rejected form leaves the map as it was; an accepted one adds
     * a new reservation under the trimmed id, built from the trimmed id,
     * name, address and contact, with no manual status, and changes no
     * other entry. Both invariants of the map are kept.
     */
    method Save(form: Form, written: bool) returns (result: SaveResult)
      modifies reservations
      ensures FirstRejection(form, old(reservations.entries).Keys).Some? ==>
        result == Rejected(FirstRejection(form, old(reservations.entries).Keys).value)
        && reservations.entries == old(reservations.entries)
      ensures FirstRejection(form, old(reservations.entries).Keys).None? ==>
        var id := Trim(form.resNo);
        && result == Saved(written)
        && AddedOnly(old(reservations.entries), reservations.entries, id)
        && var r := reservations.entries[id];
        && fresh(r)
        && r.resNo == id && r.name == Trim(form.name) && r.address == Trim(form.address)
        && r.contact == Trim(form.contact) && r.roomType == form.roomType
        && r.checkIn == form.checkIn && r.checkOut == form.checkOut && r.manualStatus == None
      ensures old(KeyedById(reservations.entries)) ==> KeyedById(reservations.entries)
      ensures old(ManualStatusesValid(reservations.entries)) ==> ManualStatusesValid(reservations.entries)
    {
      var rejection := FirstRejection(form, reservations.entries.Keys);
      if rejection.Some? {
        return Rejected(rejection.value);
      }
      var r := new Reservation(Trim(form.resNo), Trim(form.name), Trim(form.address), Trim(form.contact),
                               form.roomType, form.checkIn, form.checkOut);
      reservations.entries := reservations.entries[r.resNo := r];
      result := Saved(written);
    }
  }
}
