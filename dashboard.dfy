/**
 * `updateStats` of src/resort/DashboardPanel.java: the three figures on the
 * dashboard cards, computed by stream folds over the shared map.
 */
module Dashboard {
  import opened ReservationEntity
  import Reports

  datatype DashboardStats = DashboardStats(totalBookings: int, activeBookings: int, totalRevenue: int)

  /**
   * The number of reservations, the number whose status is "Active" (never
   * more than the total) and the sum of all costs. The figures agree with
   * the summary report, and, when every status is one of the five, with the
   * status report's grand total.
   */
  ghost function UpdateStats(m: map<string, Reservation>, today: int): (s: DashboardStats)
    reads m.Values
    ensures s.totalBookings == |m|
    ensures 0 <= s.activeBookings <= s.totalBookings
    ensures s.activeBookings == |Reports.WithStatus(m, today, ACTIVE)|
    ensures s.activeBookings == Reports.SummaryFigures(m, today).active
    ensures s.totalRevenue == Reports.SummaryFigures(m, today).totalRevenue
    ensures AllStatusesKnown(m, today) ==> s.totalRevenue == Reports.StatusReportFigures(m, today).totalRevenue
  {
    Reports.StatusCountAtMostTotal(m, today, ACTIVE);
    DashboardStats(|m|, Reports.StatusCount(m, today, ACTIVE), Reports.TotalRevenue(Reports.Bookings(m)))
  }
}
