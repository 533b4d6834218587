# Ocean Resort reservations in Dafny

A model of the reservation logic of the Ocean Resort desktop application (a
Java Swing program). It covers:

- the `Reservation` entity: the nights of a stay, the cost snapshot and the
  status derived from the dates unless a manual status has been set;
- the shared reservation map and the commands that change it: creating a
  reservation through the form's chain of checks, deleting it, and checking
  it out or cancelling it from the bookings table or the details dialog;
- the bookings table, its case-insensitive search filter, the invoice
  figures and the fail-soft load at start-up;
- the numbers of the summary, room-type and status reports and of the
  dashboard, with proofs that their totals agree;
- the older single-file variant of the application (`OceanResortSystem.java`).

Dates are day numbers (days since 1970-01-01), and the current date is the
parameter `today`. A confirmation dialog is the boolean `confirmed`.
Whether the data file could be written after a change is the boolean
`written`. A failed write keeps the change in memory. Its error message is
overwritten at once by the handler's own success message, so the user
never sees it. The
data file read at start-up is a `DataFile` value: missing, unreadable or
holding a map.

Modules: one per core source file, plus `Common`, `Text` and `ReservationStore`, which model shared types, the Java library behaviour the code relies on, and the shared map:

| file | module | source |
|---|---|---|
| `common.dfy` | `Common` | shared result and option types |
| `text.dfy` | `Text` | the `String`/`LocalDate` behaviour the code relies on (trim, lower-case, contains, decimal and ISO date text) |
| `reservation.dfy` | `ReservationEntity` | `Reservation.java` |
| `store.dfy` | `ReservationStore` | the shared `HashMap` and its invariants |
| `resort_main.dfy` | `ResortMain` | `OceanResortSystemMain.java` |
| `reservation_panel.dfy` | `NewReservation` | `ReservationPanel.java` |
| `reports.dfy` | `Reports` | `ReportsPanel.java` |
| `dashboard.dfy` | `Dashboard` | `DashboardPanel.java` |
| `legacy.dfy` | `LegacyResort` | `OceanResortSystem.java` |

The reservation is a class. Its unchanging fields are `const`, and the
cost is a `const` initialised from `CalculateCost`, so the snapshot can never
be recomputed. `manualStatus` is its only mutable field. The shared map is
the class `ReservationMap`, which the window and the form both reference.
The window's table rows are a field of `ResortSystem` that `RefreshTable`
rebuilds. The stream folds of the reports and the dashboard are ghost
functions over the map. The `forEach` accumulations into per-room maps are
methods with loops, proved equal to those folds.

The handlers' guards are modelled as written:

- The table's CHECK OUT button refuses only Checked-Out, Cancelled and
  Upcoming reservations, so it also accepts Completed ones.
- The table's CANCEL button refuses only Cancelled, Checked-Out and Completed
  reservations, so it also accepts Active ones.
- The details dialog is stricter: it offers CHECK OUT only for Active
  reservations, and CANCEL only for Active and Upcoming ones.
- `setStatusManual` itself checks nothing. A repeated manual action is
  refused only by the handlers' guards.

## Model

| member | source | states |
|---|---|---|
| ReservationEntity.Nights | src/resort/Reservation.java:69-71 | every stay is charged at least one night; a stay with check-out after check-in is charged exactly its length in days, any other stay exactly one night |
| ReservationEntity.CalculateCost | src/resort/Reservation.java:27-31 | the cost is at least one night's rate, which is positive; dividing it by the nights leaves no remainder and gives back the rate of the room type (Single 8000, Double 12000, anything else 20000) |
| ReservationEntity.Reservation.constructor | src/resort/Reservation.java:14-25 | the fields are the arguments; there is no manual status; the cost is the snapshot of the cost rule |
| ReservationEntity.Reservation.SetStatusManual | src/resort/Reservation.java:52-54 | the manual status becomes the given string; cost, dates and the other fields cannot change |
| ReservationEntity.ManualStatusOverrides | src/resort/Reservation.java:36-38 | `Reservation.GetStatus`: once a manual status is set, it is the status on every day |
| ReservationEntity.DerivedStatusCases | src/resort/Reservation.java:41-49 | `Reservation.GetStatus` without a manual status: Upcoming iff today is before check-in; otherwise Completed iff today is on or after check-out; otherwise Active; always one of the five statuses |
| ReservationEntity.DerivedStatusMonotone | src/resort/Reservation.java:43-49 | the derived status only moves forward in time; a proper stay is Upcoming the day before check-in, Active on the check-in day and Completed on the check-out day |
| Text.TrimFacts | src/resort/ReservationPanel.java:101-123 | `trim` returns the piece of its input that starts where the leading trimmable characters (code at most U+0020) end; every character outside that piece is trimmable and the piece neither starts nor ends with one, so only the two ends are stripped; it is empty exactly when every character is trimmable |
| ReservationStore.KeyedByIdNoSharing | src/resort/ReservationPanel.java:155 | in a map where each reservation is stored under its own id, two keys never share a reservation object, so a status change through one key cannot show through another |
| ReservationStore.ValidStatusesAreKnown | src/resort/OceanResortSystemMain.java:266-315 | while the only manual statuses are "Checked-Out" and "Cancelled" (the only ones the handlers set), every reservation shows one of the five statuses on every day |
| ReservationStore.LoadedEntries | src/resort/OceanResortSystemMain.java:549-559 | start-up yields the stored map when the file can be read, and an empty map when it is missing or any read error occurs |
| ResortMain.TableTransitions | src/resort/OceanResortSystemMain.java:246-258 | `CheckOutRefusal` and `CancelRefusal`, the table's guards: of the five statuses, the table allows check-out exactly from Active or Completed, and cancellation exactly from Upcoming or Active |
| ResortMain.ManualActionIsFinal | src/resort/OceanResortSystemMain.java:247-253 | after a check-out or a cancellation, every later check-out and cancellation is refused, on any day |
| ResortMain.DialogWithinTable | src/resort/OceanResortSystemMain.java:383-417 | `DialogButtons`, the buttons the details dialog offers: it always offers CLOSE; each action it offers the table also allows; a Completed reservation can be checked out from the table but not from the dialog |
| ResortMain.RowCells | src/resort/OceanResortSystemMain.java:525-534 | `RowOf`, the row `refreshTable` adds for a reservation: it has eight columns, which the filter reads as: id, guest name, room type, ISO check-in and check-out dates, nights, current status and the cost with thousands separators |
| ResortMain.Include | src/resort/OceanResortSystemMain.java:156-163 | the filter keeps a row iff some cell's string value, lower-cased, contains the lower-cased query; the scan stops at the first match |
| ResortMain.VisibleRows | src/resort/OceanResortSystemMain.java:151-165 | a row is shown iff the query is blank after trimming or the filter keeps it; the shown rows keep the table model's order |
| ResortMain.SearchIgnoresCase | src/resort/OceanResortSystemMain.java:157-159 | a query and its lower-cased form show exactly the same rows |
| ResortMain.LowerKeepsBlank | src/resort/OceanResortSystemMain.java:152 | lower-casing a query never turns a blank query into a non-blank one, or back |
| ResortMain.SearchFindsIdAndName | src/resort/OceanResortSystemMain.java:156-163 | a query found, ignoring case, in a reservation's id or guest name shows that reservation's row |
| ResortMain.InvoiceFor | src/resort/OceanResortSystemMain.java:443-482 | a blank id is refused; an unknown id is reported as not found; otherwise the invoice shows the reservation's cost, nights and status, and its rate per night is exactly the room rate with rate times nights equal to the total |
| ResortMain.RemovedOnlyFacts | src/resort/OceanResortSystemMain.java:207 | removing an id shrinks the map by one exactly when the id was stored, and keeps both map invariants |
| ResortMain.TableRows | src/resort/OceanResortSystemMain.java:523-537 | the loop adds exactly one row per stored reservation, built from that reservation, each id exactly once |
| ResortMain.ResortSystem.constructor | src/resort/OceanResortSystemMain.java:26-29 | the window starts with the map loaded fail-soft from the data file |
| ResortMain.ResortSystem.RefreshTable | src/resort/OceanResortSystemMain.java:523-537 | afterwards the table holds exactly one row per stored reservation |
| ResortMain.ResortSystem.Delete | src/resort/OceanResortSystemMain.java:188-212 | no selection, or an answer of No, changes nothing; a confirmed delete removes exactly the selected id whatever its status, keeps every other entry and rebuilds the table |
| ResortMain.ResortSystem.ApplyManual | src/resort/OceanResortSystemMain.java:255-271 | a refused action or an answer of No changes nothing; otherwise the manual status becomes the action's status and the table is rebuilt; the map is unchanged and the statuses stay valid |
| ResortMain.ResortSystem.CheckOut | src/resort/OceanResortSystemMain.java:234-272 | no selection or an unknown id changes nothing; a Checked-Out, Cancelled or Upcoming reservation is refused with its reason and nothing changes; otherwise, once confirmed, the status becomes "Checked-Out" |
| ResortMain.ResortSystem.Cancel | src/resort/OceanResortSystemMain.java:278-317 | no selection or an unknown id changes nothing; a Cancelled, Checked-Out or Completed reservation is refused with its reason and nothing changes; otherwise, once confirmed, the status becomes "Cancelled" |
| ResortMain.ResortSystem.DialogPress | src/resort/OceanResortSystemMain.java:383-417 | the dialog's CHECK OUT and CANCEL set the manual status without a further confirmation and rebuild the table; CLOSE closes the dialog and changes nothing |
| NewReservation.RejectionOrder | src/resort/ReservationPanel.java:101-143 | `FirstRejection`, the form's chain of checks: each rejection is reported exactly when its own check fails and all earlier ones passed, in the order id, name, contact, duplicate id, dates; a form is accepted exactly when all five pass |
| NewReservation.AddressNeverChecked | src/resort/ReservationPanel.java:109-123 | the address, empty included, never affects whether a form is accepted |
| NewReservation.AcceptedFormFacts | src/resort/ReservationPanel.java:140-153 | an accepted form has a non-empty, new trimmed id and is charged its exact nights times the rate; it is Upcoming before check-in and Active on the check-in day |
| NewReservation.AddedOnlyGrowsByOne | src/resort/ReservationPanel.java:155 | inserting under a new key grows the map by exactly one |
| NewReservation.ReservationPanel.Save | src/resort/ReservationPanel.java:99-162 | a rejected form leaves the map unchanged and reports the first failing check; an accepted form adds one new reservation under the trimmed id, built from the trimmed inputs and with no manual status, and keeps every other entry and both map invariants |
| Reports.WithStatusMembers | src/resort/ReportsPanel.java:62-66 | a reservation is in a status's class exactly when it is stored and its `getStatus()` equals that status |
| Reports.StatusCountAtMostTotal | src/resort/ReportsPanel.java:62-66 | a status count is never more than the number of reservations |
| Reports.StatusPartition | src/resort/ReportsPanel.java:61-66 | when every status is one of the five, the five status counts add up to the number of reservations, and the five status revenues add up to the total revenue |
| Reports.SummaryFigures | src/resort/ReportsPanel.java:60-66 | the summary's total is the number of reservations; each of the five status counts is the number of reservations showing that status; its revenue sums the costs of all of them, cancelled included; when every status is one of the five, the status counts add up to the total |
| Reports.CountBookingsByRoom | src/resort/ReportsPanel.java:68-71 | one entry per room type that occurs, holding its number of bookings; the entries add up to the number of reservations |
| Reports.AccumulateRoomTotals | src/resort/ReportsPanel.java:97-104 | for each room type that occurs, the number of its bookings and the sum of their costs |
| Reports.GenerateRoomAnalysis | src/resort/ReportsPanel.java:96-127 | one row for each of Single, Double and Suite, in that order, with count and revenue defaulting to 0 for a type with no bookings |
| Reports.RoomAverageGuard | src/resort/ReportsPanel.java:117-119 | a room type with no bookings has revenue 0 and average 0; otherwise the average is the revenue divided by the bookings, rounded down |
| Reports.BookingsCostAtLeastRate | src/resort/Reservation.java:27-31 | every booking costs at least one night of its room type |
| Reports.RoomAverageAtLeastRate | src/resort/ReportsPanel.java:116-119 | the average per booking of a booked room type is at least its nightly rate |
| Reports.RoomRowsCoverAll | src/resort/ReportsPanel.java:100-118 | when every room type is Single, Double or Suite, the three rows account for every booking and their revenues add up to the total revenue |
| Reports.StatusReportFigures | src/resort/ReportsPanel.java:133-181 | one line per status, in the report's order, each with its count and revenue; the grand total is the sum of the five line revenues; when every status is one of the five, the grand total equals the summary's total revenue and the counts add up to the number of reservations |
| Dashboard.UpdateStats | src/resort/DashboardPanel.java:80-88 | total bookings is the map size; active bookings is the number of Active reservations, at most the total; the revenue equals the summary's total revenue, and the status report's grand total when every status is one of the five |
| LegacyResort.LegacyReservation.constructor | src/resort/OceanResortSystem.java:28-39 | a new legacy reservation has status "Active" whatever its dates, and its cost follows the same rule as the newer entity |
| LegacyResort.LegacyReservation.SetStatus | src/resort/OceanResortSystem.java:56 | the stored status becomes the given string and nothing else changes |
| LegacyResort.SummaryFigures | src/resort/OceanResortSystem.java:790-792 | the legacy summary and dashboard figures: the total is the map size; the active count is the number of reservations whose stored status is "Active" (`ActiveKeys`), at most the total, and equal to it while every status is "Active"; the revenue sums all costs |
| LegacyResort.SummaryRoomCounts | src/resort/OceanResortSystem.java:793-796 | the summary's bookings by room type: one entry per room type that occurs, holding its number of bookings; the entries add up to the number of reservations |
| LegacyResort.RoomAnalysis | src/resort/OceanResortSystem.java:818-841 | three rows, Single, Double and Suite; a type with no bookings has average 0; a booked type's average is at least its nightly rate |
| LegacyResort.LegacySystem.constructor | src/resort/OceanResortSystem.java:988-999 | the stored map, or an empty map when the file is missing or unreadable |
| LegacyResort.LegacySystem.Save | src/resort/OceanResortSystem.java:452-514 | the same checks in the same order as the newer form; an accepted form adds exactly one "Active" reservation under the trimmed id and keeps every other entry |
| LegacyResort.LegacySystem.Delete | src/resort/OceanResortSystem.java:584-599 | with a selection, the id is removed without confirmation or status check, and every other entry is kept; every status stays "Active" |

## Left out

- Swing layout, styling, timers and the status bar. The messages of the status bar are the `Refusal` and `Rejection` values, not their text.
- The login screen and the legacy login handler: a hard-coded credential comparison.
- Java object serialization. The file read is the `DataFile` input. The file write is the `written` flag, and only its policy is modelled: a failed write keeps the change in memory.
- The lost save error. `saveReservationsToFile` posts "Error saving data" when the write fails (src/resort/OceanResortSystemMain.java:543, src/resort/OceanResortSystem.java:982). Every caller then posts its own success message in the same event, for example src/resort/OceanResortSystemMain.java:208-210 and src/resort/ReservationPanel.java:156-158, so the error is never shown. `Done(written)` keeps the two cases apart, but the program does not show them differently.
- ReservationStore.LoadedEntries: both entry points read and write the same `reservations.dat` (src/resort/Constants.java:20, src/resort/OceanResortSystem.java:64). A file written by the other variant can deserialize without error and pass the unchecked cast, then fail with a `ClassCastException` at the first `getStatus()` call rather than load as an empty map. A `DataFile` holds a map of the right class, so the model cannot express that case. A loaded reservation's `totalCost` is also assumed to equal the cost rule: the model's cost is a `const` initialised from `CalculateCost`, while deserialization restores the stored `totalCost` without running the constructor. This holds for every file the program itself writes, and `InvoiceFor`'s exact rate per night and `Reports.BookingsCostAtLeastRate` rely on it for loaded data.
- Text.Grouped: always uses ',' as the thousands separator. `String.format("%,d")` uses the default locale's separator, and the search filter reads that string, so the model's cost column matches a query only as it would in a locale that groups with ','.
- ResortMain.VisibleRows: the `TableRowSorter` also sorts the view when a column header is clicked. Sorting is not modelled, so the shown rows keep the table model's order only while no sort key is set.
- `LocalDate.now()` and the conversion of the form's `java.util.Date` values through the system time zone. The current date and the form's dates are day numbers.
- JTable selection: `getSelectedRow` and `convertRowIndexToModel` are not modelled. The selected row is given as the id in its first column.
- The HTML of the reports, the details dialog and the invoice, and printing. The invoice's date formatting ("MMM dd, yyyy") is not modelled.
- The regex search of the legacy file and its bookings table, billing and help screens.
- The dashboard refresh that `saveReservationsToFile` runs after every change, including the form's save (src/resort/ReservationPanel.java:156). The dashboard figures are a function of the map (`Dashboard.UpdateStats`), not a stored state. The window's table rebuild after its own handlers is modelled (`RefreshTable`). The form's save does not rebuild the table.
- Reports.TotalRevenue: sums are unbounded integers. Java's `long` sums would wrap only above 9.2 × 10^18. A single cost stays far below that limit over the whole `LocalDate` range (at most about 7.3 × 10^11 nights times 20000).
- Text.Lower: lower-cases the ASCII letters only; Java's `toLowerCase` also maps other Unicode letters.
- ResortMain.ResortSystem.DialogPress: the dialog's buttons are chosen by the status on the day `today`, and pressing one is modelled on that same day.
- The order of the table rows follows the map's iteration order, which Java leaves unspecified. The model proves one row per reservation and does not fix their order.
- Generating a report or updating the dashboard changes nothing. The report folds are ghost functions, and the report methods have no `modifies` clause, so the model has no way to state that as a separate property.
