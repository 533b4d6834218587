/**
 * The main window of src/resort/OceanResortSystemMain.java, without its
 * Swing layout: the bookings table and its search filter, the delete,
 * check-out and cancel buttons of the table, the action buttons of the
 * details dialog, the invoice figures and the start-up load.
 *
 * The current date is the parameter `today`; a confirmation dialog is the
 * boolean `confirmed` (YES pressed); whether the data file could be written
 * afterwards is the boolean `written` (a failed write keeps the change in
 * memory, and its error message is at once replaced by the handler's
 * success message). The selected table row is the id in its first
 * column, or None when no row is selected.
 */
module ResortMain {
  import opened Common
  import opened Text
  import opened ReservationEntity
  import opened ReservationStore

  // ---------------------------------------------------------------------
  // Legality of the manual status changes
  // ---------------------------------------------------------------------

  /** Why a check-out or a cancellation from the table is refused. */
  datatype Refusal =
    | AlreadyCheckedOut | CheckOutOfCancelled | CheckOutOfUpcoming
    | AlreadyCancelled | CancelOfCheckedOut | CancelOfCompleted

  /** The guards of the table's CHECK OUT button, in their order. */
  function CheckOutRefusal(status: string): Option<Refusal> {
    if status == CHECKED_OUT then Some(AlreadyCheckedOut)
    else if status == CANCELLED then Some(CheckOutOfCancelled)
    else if status == UPCOMING then Some(CheckOutOfUpcoming)
    else None
  }

  /** The guards of the table's CANCEL button, in their order. */
  function CancelRefusal(status: string): Option<Refusal> {
    if status == CANCELLED then Some(AlreadyCancelled)
    else if status == CHECKED_OUT then Some(CancelOfCheckedOut)
    else if status == COMPLETED then Some(CancelOfCompleted)
    else None
  }

  /**
   * Of the five statuses, the table lets a reservation be checked out
   * exactly when it is Active or Completed, and cancelled exactly when it
   * is Upcoming or Active.
   */
  lemma TableTransitions(status: string)
    requires IsKnownStatus(status)
    ensures CheckOutRefusal(status) == None <==> status == ACTIVE || status == COMPLETED
    ensures CancelRefusal(status) == None <==> status == UPCOMING || status == ACTIVE
  {
  }

  /** Once checked out or cancelled, a reservation can be neither checked out nor cancelled, on any day. */
  lemma ManualActionIsFinal(r: Reservation, today: int)
    requires r.manualStatus == Some(CHECKED_OUT) || r.manualStatus == Some(CANCELLED)
    ensures CheckOutRefusal(r.GetStatus(today)).Some? && CancelRefusal(r.GetStatus(today)).Some?
  {
    ManualStatusOverrides(r, today);
  }

  /** The buttons of the details dialog. */
  datatype Button = CheckOutButton | CancelButton | CloseButton

  /** The buttons the details dialog shows for a status, in their order. */
  function DialogButtons(status: string): seq<Button> {
    if status == ACTIVE then [CheckOutButton, CancelButton, CloseButton]
    else if status == UPCOMING then [CancelButton, CloseButton]
    else [CloseButton]
  }

  /**
   * The dialog is stricter than the table: every action it offers the table
   * would also allow, it always offers Close, and a Completed reservation
   * can be checked out from the table but not from the dialog.
   */
  lemma DialogWithinTable(status: string)
    ensures CloseButton in DialogButtons(status)
    ensures CheckOutButton in DialogButtons(status) ==> CheckOutRefusal(status) == None
    ensures CancelButton in DialogButtons(status) ==> CancelRefusal(status) == None
    ensures CheckOutRefusal(COMPLETED) == None && CheckOutButton !in DialogButtons(COMPLETED)
  {
  }

  // ---------------------------------------------------------------------
  // The bookings table and its search filter
  // ---------------------------------------------------------------------

  /**
   * A value stored in the table model: a String, a LocalDate (as its epoch
   * day), a Long, or the String that "%,d" made of a cost.
   */
  datatype Cell = Plain(s: string) | Date(day: int) | Number(n: int) | GroupedNumber(amount: int)

  /** A table row: its eight cells. */
  datatype Row = Row(cells: seq<Cell>)

  /** The string value the row filter reads from a cell: the object's `toString`. */
  function StringValue(c: Cell): string {
    match c
    case Plain(s) => s
    case Date(day) => DateText(day)
    case Number(n) => Decimal(n)
    case GroupedNumber(amount) => Grouped(amount)
  }

  /** The row `refreshTable` adds for a reservation: id, name, room, check-in, check-out, nights, status, cost. */
  function RowOf(r: Reservation, today: int): Row
    reads r
  {
    Row([Plain(r.resNo), Plain(r.name), Plain(r.roomType), Date(r.checkIn), Date(r.checkOut),
         Number(r.GetNights()), Plain(r.GetStatus(today)), GroupedNumber(r.totalCost)])
  }

  /** What the eight columns of a reservation's row show, as the search filter reads them. */
  lemma RowCells(r: Reservation, today: int)
    ensures var row := RowOf(r, today);
      && |row.cells| == 8
      && StringValue(row.cells[0]) == r.resNo && StringValue(row.cells[1]) == r.name
      && StringValue(row.cells[2]) == r.roomType && StringValue(row.cells[6]) == r.GetStatus(today)
      && StringValue(row.cells[3]) == DateText(r.checkIn) && StringValue(row.cells[4]) == DateText(r.checkOut)
      && StringValue(row.cells[5]) == Decimal(r.GetNights()) && StringValue(row.cells[7]) == Grouped(r.totalCost)
  {
  }

  /** Some column's string value, lower-cased, contains the lower-cased query. */
  predicate RowMatches(row: Row, text: string) {
    exists i :: 0 <= i < |row.cells| && Contains(Lower(StringValue(row.cells[i])), Lower(text))
  }

  /** A blank query removes the filter; any other query keeps the matching rows. */
  predicate RowVisible(row: Row, text: string) {
    IsBlank(text) || RowMatches(row, text)
  }

  /** The row filter's `include`: scans the columns and stops at the first that contains the query. */
  method Include(row: Row, text: string) returns (keep: bool)
    ensures keep <==> RowMatches(row, text)
  {
    var searchLower := Lower(text);
    for i := 0 to |row.cells|
      invariant forall j :: 0 <= j < i ==> !Contains(Lower(StringValue(row.cells[j])), searchLower)
    {
      if Contains(Lower(StringValue(row.cells[i])), searchLower) {
        return true;
      }
    }
    return false;
  }

  /**
   * The indices of the rows the table shows for a query, in table order:
   * all of them when the query is blank after trimming, otherwise exactly
   * the rows the filter includes.
   */
  method VisibleRows(rows: seq<Row>, text: string) returns (shown: seq<int>)
    ensures forall i :: i in shown <==> 0 <= i < |rows| && RowVisible(rows[i], text)
    ensures forall p, q :: 0 <= p < q < |shown| ==> shown[p] < shown[q]
  {
    shown := [];
    var blank := IsBlank(text);
    for i := 0 to |rows|
      invariant forall j :: j in shown <==> 0 <= j < i && RowVisible(rows[j], text)
      invariant forall p, q :: 0 <= p < q < |shown| ==> shown[p] < shown[q]
      invariant forall p :: 0 <= p < |shown| ==> shown[p] < i
    {
      var keep := blank;
      if !blank {
        keep := Include(rows[i], text);
      }
      if keep {
        shown := shown + [i];
      }
    }
  }

  /** Lower-casing twice is lower-casing once. */
  lemma LowerIdempotent(s: string)
    ensures Lower(Lower(s)) == Lower(s)
  {
  }

  /** Lower-casing changes no character that `trim` strips, nor any that it keeps into one it strips. */
  lemma LowerKeepsBlank(s: string)
    ensures IsBlank(Lower(s)) <==> IsBlank(s)
  {
    TrimFacts(s);
    TrimFacts(Lower(s));
    assert forall i :: 0 <= i < |s| ==> (IsTrimmable(Lower(s)[i]) <==> IsTrimmable(s[i]));
  }

  /** The search ignores case: a query and its lower-cased form show the same rows. */
  lemma SearchIgnoresCase(row: Row, text: string)
    ensures RowVisible(row, text) <==> RowVisible(row, Lower(text))
  {
    LowerIdempotent(text);
    LowerKeepsBlank(text);
  }

  /** A query found, ignoring case, in a reservation's id or guest name shows its row. */
  lemma SearchFindsIdAndName(r: Reservation, today: int, text: string)
    requires Contains(Lower(r.resNo), Lower(text)) || Contains(Lower(r.name), Lower(text))
    ensures RowVisible(RowOf(r, today), text)
  {
    var row := RowOf(r, today);
    RowCells(r, today);
    if Contains(Lower(r.resNo), Lower(text)) {
      assert Contains(Lower(StringValue(row.cells[0])), Lower(text));
    } else {
      assert Contains(Lower(StringValue(row.cells[1])), Lower(text));
    }
  }

  // ---------------------------------------------------------------------
  // Invoice
  // ---------------------------------------------------------------------

  /** The figures of an invoice. */
  datatype Invoice = Invoice(resNo: string, name: string, contact: string, roomType: string,
                             checkIn: int, checkOut: int, nights: int, ratePerNight: int,
                             status: string, total: int)

  datatype InvoiceResult = IdRequired | NotFound(id: string) | Generated(invoice: Invoice)

  /**
   * GENERATE INVOICE for the text typed in the id field: the trimmed text
   * must be non-empty and a stored id. The rate per night is the cost
   * divided by the nights (both positive, so Java's truncating division and
   * Dafny's agree); the division is exact and gives back the room rate.
   */
  function InvoiceFor(m: map<string, Reservation>, text: string, today: int): (res: InvoiceResult)
    reads m.Values
    ensures res.IdRequired? <==> IsBlank(text)
    ensures res.NotFound? <==> !IsBlank(text) && Trim(text) !in m
    ensures res.NotFound? ==> res.id == Trim(text)
    ensures res.Generated? ==>
      var r := m[Trim(text)];
      && res.invoice.resNo == r.resNo && res.invoice.total == r.totalCost
      && res.invoice.nights == r.GetNights() && res.invoice.status == r.GetStatus(today)
      && res.invoice.ratePerNight == Rate(r.roomType)
      && res.invoice.ratePerNight * res.invoice.nights == res.invoice.total
  {
    var id := Trim(text);
    if id == [] then IdRequired
    else if id !in m then NotFound(id)
    else
      var r := m[id];
      var nights := r.GetNights();
      Generated(Invoice(r.resNo, r.name, r.contact, r.roomType, r.checkIn, r.checkOut,
                        nights, r.totalCost / nights, r.GetStatus(today), r.totalCost))
  }

  // ---------------------------------------------------------------------
  // The window
  // ---------------------------------------------------------------------

  /** A guarded action: refused if a guard fails, otherwise declined or done as the dialog is answered. */
  function Decide(refusal: Option<Refusal>, confirmed: bool, written: bool): Outcome<Refusal> {
    if refusal.Some? then Refused(refusal.value) else if !confirmed then Declined else Done(written)
  }

  /** The reservation a selection refers to, if it is stored. */
  function Picked(m: map<string, Reservation>, selected: Option<string>): set<Reservation> {
    if selected.Some? && selected.value in m then {m[selected.value]} else {}
  }

  /** `after` is `before` without `id`: every other entry is kept as it was. */
  ghost predicate RemovedOnly(before: map<string, Reservation>, after: map<string, Reservation>, id: string) {
    && id !in after
    && after.Keys == before.Keys - {id}
    && forall k :: k in after ==> after[k] == before[k]
  }

  /** Removing an id shrinks the map by one exactly when the id was stored, and keeps both invariants. */
  lemma RemovedOnlyFacts(before: map<string, Reservation>, after: map<string, Reservation>, id: string)
    requires RemovedOnly(before, after, id)
    ensures |after| == if id in before then |before| - 1 else |before|
    ensures KeyedById(before) ==> KeyedById(after)
    ensures ManualStatusesValid(before) ==> ManualStatusesValid(after)
  {
    if id in before {
      assert before.Keys == after.Keys + {id};
    } else {
      assert before.Keys == after.Keys;
    }
  }

  /** One row per key of `m`, each built from that key's reservation, every key exactly once. */
  ghost predicate RowsFor(m: map<string, Reservation>, today: int, rows: seq<Row>, keys: seq<string>)
    reads m.Values
  {
    && |rows| == |keys| == |m|
    && (forall i :: 0 <= i < |keys| ==> keys[i] in m && rows[i] == RowOf(m[keys[i]], today))
    && (forall i, j :: 0 <= i < j < |keys| ==> keys[i] != keys[j])
    && (forall k :: k in m ==> k in keys)
  }

  /** The loop of `refreshTable`: visits every reservation once and adds its row. */
  method TableRows(m: map<string, Reservation>, today: int) returns (rows: seq<Row>, ghost keys: seq<string>)
    ensures RowsFor(m, today, rows, keys)
  {
    var rest := m.Keys;
    rows, keys := [], [];
    while rest != {}
      invariant rest <= m.Keys
      invariant |rows| == |keys| && |keys| + |rest| == |m|
      invariant forall i :: 0 <= i < |keys| ==> keys[i] in m && keys[i] !in rest && rows[i] == RowOf(m[keys[i]], today)
      invariant forall i, j :: 0 <= i < j < |keys| ==> keys[i] != keys[j]
      invariant forall k :: k in m && k !in rest ==> k in keys
      decreases rest
    {
      var k :| k in rest;
      rows := rows + [RowOf(m[k], today)];
      keys := keys + [k];
      rest := rest - {k};
    }
  }

  /** `setStatusManual` on a reservation of `m`, with "Checked-Out" or "Cancelled": the statuses stay valid. */
  method SetManual(m: map<string, Reservation>, r: Reservation, status: string)
    requires status == CHECKED_OUT || status == CANCELLED
    modifies r
    ensures r.manualStatus == Some(status)
    ensures old(ManualStatusesValid(m)) ==> ManualStatusesValid(m)
  {
    r.SetStatusManual(status);
  }

  class ResortSystem {
    /** The map shared with the reservation form, the dashboard and the reports. */
    const reservations: ReservationMap
    /** The rows of the bookings table, as last rebuilt. */
    var rows: seq<Row>
    /** The id each row was built from. */
    ghost var rowKeys: seq<string>

    /** Start-up: the map is loaded from the data file, failing soft to an empty map. */
    constructor (file: DataFile<Reservation>)
      ensures fresh(reservations)
      ensures reservations.entries == LoadedEntries(file)
      ensures rows == [] && rowKeys == []
    {
      reservations := new ReservationMap(LoadedEntries(file));
      rows := [];
      rowKeys := [];
    }

    /** The table holds exactly one row per stored reservation, built from that reservation. */
    ghost predicate TableInSync(today: int)
      reads this, reservations, reservations.entries.Values
    {
      RowsFor(reservations.entries, today, rows, rowKeys)
    }

    /** `refreshTable`: empties the table and adds one row per reservation, in the map's iteration order. */
    method RefreshTable(today: int)
      modifies this
      ensures TableInSync(today)
    {
      var m := reservations.entries;
      var newRows;
      ghost var keys;
      newRows, keys := TableRows(m, today);
      rows, rowKeys := newRows, keys;
    }

    /** The table's DELETE button: a confirmed delete removes the selected id whatever its status. */
    method Delete(selected: Option<string>, confirmed: bool, written: bool, today: int)
      returns (outcome: Outcome<Refusal>)
      modifies this, reservations
      ensures selected.None? ==> outcome == NothingSelected
      ensures selected.Some? && !confirmed ==> outcome == Declined
      ensures selected.Some? && confirmed ==> outcome == Done(written)
      ensures outcome.Done? ==> RemovedOnly(old(reservations.entries), reservations.entries, selected.value)
                                && TableInSync(today)
      ensures !outcome.Done? ==> unchanged(this, reservations)
      ensures old(KeyedById(reservations.entries)) ==> KeyedById(reservations.entries)
      ensures old(ManualStatusesValid(reservations.entries)) ==> ManualStatusesValid(reservations.entries)
    {
      if selected.None? {
        return NothingSelected;
      }
      var id := selected.value;
      if !confirmed {
        return Declined;
      }
      reservations.entries := reservations.entries - {id};
      RefreshTable(today);
      outcome := Done(written);
    }

    /**
     * The part of the table's CHECK OUT and CANCEL handlers after the
     * selected reservation has been found: a refused action or an answer of
     * No changes nothing; otherwise the manual status becomes `status` and
     * the table is rebuilt. The map itself is never changed.
     */
    method ApplyManual(id: string, refusal: Option<Refusal>, status: string, confirmed: bool, written: bool, today: int)
      returns (outcome: Outcome<Refusal>)
      requires id in reservations.entries
      requires status == CHECKED_OUT || status == CANCELLED
      modifies this, reservations.entries[id]
      ensures reservations.entries == old(reservations.entries)
      ensures outcome == Decide(refusal, confirmed, written)
      ensures outcome.Done? ==> reservations.entries[id].manualStatus == Some(status) && TableInSync(today)
      ensures !outcome.Done? ==> unchanged(this, reservations.entries[id])
      ensures old(ManualStatusesValid(reservations.entries)) ==> ManualStatusesValid(reservations.entries)
    {
      if refusal.Some? {
        return Refused(refusal.value);
      }
      if !confirmed {
        return Declined;
      }
      SetManual(reservations.entries, reservations.entries[id], status);
      RefreshTable(today);
      outcome := Done(written);
    }

    /**
     * The table's CHECK OUT button: refused for a Checked-Out, Cancelled or
     * Upcoming reservation; otherwise, once confirmed, the manual status
     * becomes "Checked-Out". The map itself is never changed.
     */
    method CheckOut(selected: Option<string>, confirmed: bool, written: bool, today: int)
      returns (outcome: Outcome<Refusal>)
      modifies this, Picked(reservations.entries, selected)
      ensures reservations.entries == old(reservations.entries)
      ensures selected.None? ==> outcome == NothingSelected
      ensures selected.Some? && selected.value !in reservations.entries ==> outcome == Ignored
      ensures selected.Some? && selected.value in reservations.entries ==>
        outcome == Decide(CheckOutRefusal(old(reservations.entries[selected.value].GetStatus(today))), confirmed, written)
      ensures outcome.Done? ==>
        selected.Some? && reservations.entries[selected.value].manualStatus == Some(CHECKED_OUT) && TableInSync(today)
      ensures !outcome.Done? ==> unchanged(this) && unchanged(Picked(reservations.entries, selected))
      ensures old(ManualStatusesValid(reservations.entries)) ==> ManualStatusesValid(reservations.entries)
    {
      if selected.None? {
        return NothingSelected;
      }
      var id := selected.value;
      if id !in reservations.entries {
        return Ignored;
      }
      var r := reservations.entries[id];
      outcome := ApplyManual(id, CheckOutRefusal(r.GetStatus(today)), CHECKED_OUT, confirmed, written, today);
    }

    /**
     * The table's CANCEL button: refused for a Cancelled, Checked-Out or
     * Completed reservation; otherwise, once confirmed, the manual status
     * becomes "Cancelled". The map itself is never changed.
     */
    method Cancel(selected: Option<string>, confirmed: bool, written: bool, today: int)
      returns (outcome: Outcome<Refusal>)
      modifies this, Picked(reservations.entries, selected)
      ensures reservations.entries == old(reservations.entries)
      ensures selected.None? ==> outcome == NothingSelected
      ensures selected.Some? && selected.value !in reservations.entries ==> outcome == Ignored
      ensures selected.Some? && selected.value in reservations.entries ==>
        outcome == Decide(CancelRefusal(old(reservations.entries[selected.value].GetStatus(today))), confirmed, written)
      ensures outcome.Done? ==>
        selected.Some? && reservations.entries[selected.value].manualStatus == Some(CANCELLED) && TableInSync(today)
      ensures !outcome.Done? ==> unchanged(this) && unchanged(Picked(reservations.entries, selected))
      ensures old(ManualStatusesValid(reservations.entries)) ==> ManualStatusesValid(reservations.entries)
    {
      if selected.None? {
        return NothingSelected;
      }
      var id := selected.value;
      if id !in reservations.entries {
        return Ignored;
      }
      var r := reservations.entries[id];
      outcome := ApplyManual(id, CancelRefusal(r.GetStatus(today)), CANCELLED, confirmed, written, today);
    }

    /**
     * A button of the details dialog of reservation `id`, which offers only
     * the buttons of its status: CHECK OUT and CANCEL set the manual status
     * without a further confirmation; CLOSE changes nothing.
     */
    method DialogPress(id: string, button: Button, written: bool, today: int)
      returns (outcome: Outcome<Refusal>)
      requires id in reservations.entries
      requires button in DialogButtons(reservations.entries[id].GetStatus(today))
      modifies this, reservations.entries[id]
      ensures reservations.entries == old(reservations.entries)
      ensures button == CloseButton ==> outcome == Closed && unchanged(this, reservations.entries[id])
      ensures button == CheckOutButton ==>
        outcome == Done(written) && reservations.entries[id].manualStatus == Some(CHECKED_OUT) && TableInSync(today)
      ensures button == CancelButton ==>
        outcome == Done(written) && reservations.entries[id].manualStatus == Some(CANCELLED) && TableInSync(today)
      ensures old(KeyedById(reservations.entries)) ==> KeyedById(reservations.entries)
      ensures old(ManualStatusesValid(reservations.entries)) ==> ManualStatusesValid(reservations.entries)
    {
      match button
      case CloseButton =>
        outcome := Closed;
      case CheckOutButton =>
        outcome := ApplyManual(id, None, CHECKED_OUT, true, written, today);
      case CancelButton =>
        outcome := ApplyManual(id, None, CANCELLED, true, written, today);
    }
  }
}
