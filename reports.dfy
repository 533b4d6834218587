/**
 * The figures of src/resort/ReportsPanel.java: the summary report (counts
 * per status, total revenue, bookings per room type), the room-type
 * analysis (bookings, revenue and average per room type) and the status
 * report (count and revenue per status, and their grand total).
 *
 * The stream pipelines (`filter(...).count()`, `mapToLong(...).sum()`) are
 * ghost functions over the map; the `forEach` loops that accumulate into
 * HashMaps are methods with loops, proved equal to those functions.
 */
module Reports {
  import opened ReservationEntity

  /** What the room reports read of a reservation: its room type and its cost snapshot. */
  datatype Booking = Booking(roomType: string, cost: int)

  /** The bookings of a reservation map, under the same keys. */
  function Bookings(m: map<string, Reservation>): map<string, Booking> {
    map k | k in m :: Booking(m[k].roomType, m[k].totalCost)
  }

  function Costs(b: map<string, Booking>): map<string, int> {
    map k | k in b :: b[k].cost
  }

  /** Java's `long` division, which truncates toward zero. */
  function Quotient(a: int, n: int): int
    requires n > 0
  {
    if a >= 0 then a / n else -((-a) / n)
  }

  // ---------------------------------------------------------------------
  // Sums over a set of keys
  // ---------------------------------------------------------------------

  /** The sum of `f` over `keys`, in no particular order. */
  ghost function Sum(f: map<string, int>, keys: set<string>): int
    requires keys <= f.Keys
    decreases keys
  {
    if keys == {} then 0 else var k :| k in keys; f[k] + Sum(f, keys - {k})
  }

  /** Any key can be taken out of a sum first: the order of summation does not matter. */
  lemma {:induction false} SumRemove(f: map<string, int>, keys: set<string>, k: string)
    requires keys <= f.Keys && k in keys
    ensures Sum(f, keys) == f[k] + Sum(f, keys - {k})
    decreases keys
  {
    var j :| j in keys && Sum(f, keys) == f[j] + Sum(f, keys - {j});
    if j != k {
      SumRemove(f, keys - {j}, k);
      SumRemove(f, keys - {k}, j);
      assert keys - {j} - {k} == keys - {k} - {j};
    }
  }

  /** The sum over two disjoint key sets is the sum of the two sums. */
  lemma {:induction false} SumUnion(f: map<string, int>, a: set<string>, b: set<string>)
    requires a <= f.Keys && b <= f.Keys && a !! b
    ensures Sum(f, a + b) == Sum(f, a) + Sum(f, b)
    decreases a
  {
    if a == {} {
      assert a + b == b;
    } else {
      var k :| k in a;
      SumRemove(f, a + b, k);
      SumRemove(f, a, k);
      assert (a + b) - {k} == (a - {k}) + b;
      SumUnion(f, a - {k}, b);
    }
  }

  /** A sum of terms that are each at least `floor` is at least `floor` times their number. */
  lemma {:induction false} SumAtLeast(f: map<string, int>, keys: set<string>, floor: int)
    requires keys <= f.Keys
    requires forall k :: k in keys ==> f[k] >= floor
    ensures Sum(f, keys) >= |keys| * floor
    decreases keys
  {
    if keys != {} {
      var k :| k in keys;
      SumRemove(f, keys, k);
      SumAtLeast(f, keys - {k}, floor);
      MulSuccessor(|keys - {k}|, floor);
    }
  }

  /** One more term of `floor` adds `floor`. */
  lemma MulSuccessor(n: int, floor: int)
    ensures (n + 1) * floor == n * floor + floor
  {
  }

  /** `mapToLong(Reservation::getTotalCost).sum()` over every reservation, whatever its status. */
  ghost function TotalRevenue(b: map<string, Booking>): int {
    Sum(Costs(b), b.Keys)
  }

  // ---------------------------------------------------------------------
  // Status figures (summary report and status report)
  // ---------------------------------------------------------------------

  const STATUSES: seq<string> := [UPCOMING, ACTIVE, COMPLETED, CHECKED_OUT, CANCELLED]

  /** What `getStatus()` returns for every reservation of the map, on day `today`. */
  ghost function Statuses(m: map<string, Reservation>, today: int): map<string, string>
    reads m.Values
  {
    map k | k in m :: m[k].GetStatus(today)
  }

  /** The keys whose status is `status`. */
  ghost function Having(st: map<string, string>, status: string): set<string> {
    set k | k in st && st[k] == status
  }

  /** The keys whose `getStatus()` equals `status`. */
  ghost function WithStatus(m: map<string, Reservation>, today: int, status: string): set<string>
    reads m.Values
  {
    Having(Statuses(m, today), status)
  }

  /** `filter(r -> r.getStatus().equals(status))`: a key is counted exactly when its reservation shows `status`. */
  lemma WithStatusMembers(m: map<string, Reservation>, today: int, status: string, k: string)
    ensures k in WithStatus(m, today, status) <==> k in m && m[k].GetStatus(today) == status
  {
  }

  /** `filter(r -> r.getStatus().equals(status)).count()`. */
  ghost function StatusCount(m: map<string, Reservation>, today: int, status: string): int
    reads m.Values
  {
    |WithStatus(m, today, status)|
  }

  /** `filter(r -> r.getStatus().equals(status)).mapToLong(Reservation::getTotalCost).sum()`. */
  ghost function StatusRevenue(m: map<string, Reservation>, today: int, status: string): int
    reads m.Values
  {
    Sum(Costs(Bookings(m)), WithStatus(m, today, status))
  }

  /** No status is shown by more reservations than there are. */
  lemma StatusCountAtMostTotal(m: map<string, Reservation>, today: int, status: string)
    ensures 0 <= StatusCount(m, today, status) <= |m|
  {
    var w := WithStatus(m, today, status);
    assert Statuses(m, today).Keys == m.Keys;
    assert m.Keys == w + (m.Keys - w);
  }

  /** When every status is one of the five, the five status classes are disjoint and cover the keys. */
  lemma StatusClasses(st: map<string, string>)
    requires forall k :: k in st ==> IsKnownStatus(st[k])
    ensures var u, a, c, o, x := Having(st, UPCOMING), Having(st, ACTIVE), Having(st, COMPLETED),
                                 Having(st, CHECKED_OUT), Having(st, CANCELLED);
      && st.Keys == u + a + c + o + x
      && u !! a && (u + a) !! c && (u + a + c) !! o && (u + a + c + o) !! x
  {
  }

  /** Five pairwise disjoint key sets covering `keys` split its size and its sum. */
  lemma FivePartition(f: map<string, int>, u: set<string>, a: set<string>,
                      c: set<string>, o: set<string>, x: set<string>)
    requires u + a + c + o + x <= f.Keys
    requires u !! a && (u + a) !! c && (u + a + c) !! o && (u + a + c + o) !! x
    ensures |u| + |a| + |c| + |o| + |x| == |u + a + c + o + x|
    ensures Sum(f, u) + Sum(f, a) + Sum(f, c) + Sum(f, o) + Sum(f, x) == Sum(f, u + a + c + o + x)
  {
    SumUnion(f, u, a);
    SumUnion(f, u + a, c);
    SumUnion(f, u + a + c, o);
    SumUnion(f, u + a + c + o, x);
  }

  /**
   * When every status is one of the five, the five status classes split the
   * map: their sizes add up to the map's size and their revenues add up to
   * the total revenue.
   */
  lemma StatusPartition(m: map<string, Reservation>, today: int)
    requires AllStatusesKnown(m, today)
    ensures StatusCount(m, today, UPCOMING) + StatusCount(m, today, ACTIVE) + StatusCount(m, today, COMPLETED)
            + StatusCount(m, today, CHECKED_OUT) + StatusCount(m, today, CANCELLED) == |m|
    ensures StatusRevenue(m, today, UPCOMING) + StatusRevenue(m, today, ACTIVE) + StatusRevenue(m, today, COMPLETED)
            + StatusRevenue(m, today, CHECKED_OUT) + StatusRevenue(m, today, CANCELLED) == TotalRevenue(Bookings(m))
  {
    var u, a, c := WithStatus(m, today, UPCOMING), WithStatus(m, today, ACTIVE), WithStatus(m, today, COMPLETED);
    var o, x := WithStatus(m, today, CHECKED_OUT), WithStatus(m, today, CANCELLED);
    assert Statuses(m, today).Keys == m.Keys;
    StatusClasses(Statuses(m, today));
    FivePartition(Costs(Bookings(m)), u, a, c, o, x);
  }

  /** The figures of `generateSummaryReport` apart from the per-room counts. */
  datatype Summary = Summary(totalReservations: int, upcoming: int, active: int, completed: int,
                             checkedOut: int, cancelled: int, totalRevenue: int)

  /**
   * `generateSummaryReport`: the number of reservations, for each of the
   * five statuses the number of reservations showing it, and the total
   * revenue. When every status is one of the five, the status counts add
   * up to the number of reservations.
   */
  ghost function SummaryFigures(m: map<string, Reservation>, today: int): (s: Summary)
    reads m.Values
    ensures s.totalReservations == |m|
    ensures s.upcoming == |WithStatus(m, today, UPCOMING)| && s.active == |WithStatus(m, today, ACTIVE)|
    ensures s.completed == |WithStatus(m, today, COMPLETED)| && s.checkedOut == |WithStatus(m, today, CHECKED_OUT)|
    ensures s.cancelled == |WithStatus(m, today, CANCELLED)|
    ensures s.totalRevenue == TotalRevenue(Bookings(m))
    ensures AllStatusesKnown(m, today) ==>
      s.upcoming + s.active + s.completed + s.checkedOut + s.cancelled == s.totalReservations
  {
    if AllStatusesKnown(m, today) then StatusPartition(m, today); SummaryOf(m, today) else SummaryOf(m, today)
  }

  ghost function SummaryOf(m: map<string, Reservation>, today: int): Summary
    reads m.Values
  {
    Summary(|m|, StatusCount(m, today, UPCOMING), StatusCount(m, today, ACTIVE),
            StatusCount(m, today, COMPLETED), StatusCount(m, today, CHECKED_OUT),
            StatusCount(m, today, CANCELLED), TotalRevenue(Bookings(m)))
  }

  datatype StatusLine = StatusLine(status: string, count: int, revenue: int)

  ghost function StatusLineOf(m: map<string, Reservation>, today: int, status: string): StatusLine
    reads m.Values
  {
    StatusLine(status, StatusCount(m, today, status), StatusRevenue(m, today, status))
  }

  /** The rows of the status report and the total printed under them. */
  datatype StatusReport = StatusReport(lines: seq<StatusLine>, totalRevenue: int)

  /**
   * `generateStatusReport`: one line per status, in the report's order, and
   * as its total the sum of the five per-status revenues. When every status
   * is one of the five, that total is the summary's total revenue and the
   * counts add up to the number of reservations.
   */
  ghost function StatusReportFigures(m: map<string, Reservation>, today: int): (rep: StatusReport)
    reads m.Values
    ensures |rep.lines| == |STATUSES|
    ensures forall i :: 0 <= i < |STATUSES| ==> rep.lines[i] == StatusLineOf(m, today, STATUSES[i])
    ensures rep.totalRevenue ==
      rep.lines[0].revenue + rep.lines[1].revenue + rep.lines[2].revenue + rep.lines[3].revenue + rep.lines[4].revenue
    ensures AllStatusesKnown(m, today) ==>
      && rep.totalRevenue == SummaryFigures(m, today).totalRevenue
      && rep.lines[0].count + rep.lines[1].count + rep.lines[2].count + rep.lines[3].count + rep.lines[4].count == |m|
  {
    var lines := [StatusLineOf(m, today, UPCOMING), StatusLineOf(m, today, ACTIVE), StatusLineOf(m, today, COMPLETED),
                  StatusLineOf(m, today, CHECKED_OUT), StatusLineOf(m, today, CANCELLED)];
    var total := lines[0].revenue + lines[1].revenue + lines[2].revenue + lines[3].revenue + lines[4].revenue;
    if AllStatusesKnown(m, today) then StatusPartition(m, today); StatusReport(lines, total)
    else StatusReport(lines, total)
  }

  // ---------------------------------------------------------------------
  // Room-type figures
  // ---------------------------------------------------------------------

  /** The three room types the analysis lists, in its order. */
  const ROOM_TYPES: seq<string> := [SINGLE, DOUBLE, SUITE]

  /** The keys among `keys` booked with room type `t`. */
  ghost function OfRoom(b: map<string, Booking>, keys: set<string>, t: string): set<string> {
    set k | k in keys && k in b && b[k].roomType == t
  }

  /** The keys booked with any room type in `types`. */
  ghost function OfRooms(b: map<string, Booking>, types: set<string>): set<string> {
    set k | k in b && b[k].roomType in types
  }

  /** The room types occurring among `keys`. */
  ghost function RoomTypes(b: map<string, Booking>, keys: set<string>): set<string> {
    set k | k in keys && k in b :: b[k].roomType
  }

  /** Adding key `k` to the scanned keys adds it to its own room type's class and to no other. */
  lemma OfRoomAdd(b: map<string, Booking>, done: set<string>, k: string)
    requires k in b && k !in done
    ensures k !in OfRoom(b, done, b[k].roomType)
    ensures OfRoom(b, done + {k}, b[k].roomType) == OfRoom(b, done, b[k].roomType) + {k}
    ensures forall t :: t != b[k].roomType ==> OfRoom(b, done + {k}, t) == OfRoom(b, done, t)
    ensures RoomTypes(b, done + {k}) == RoomTypes(b, done) + {b[k].roomType}
    ensures b[k].roomType !in RoomTypes(b, done) ==> OfRoom(b, done, b[k].roomType) == {}
  {
  }

  /** Adding a new key to a sum adds its term. */
  lemma SumAdd(f: map<string, int>, keys: set<string>, k: string)
    requires keys <= f.Keys && k in f && k !in keys
    ensures Sum(f, keys + {k}) == Sum(f, keys) + f[k]
  {
    SumRemove(f, keys + {k}, k);
    assert keys + {k} - {k} == keys;
  }

  /** Summing the per-type counts over a set of types counts the bookings of those types. */
  lemma {:induction false} CountsOverTypes(b: map<string, Booking>, counts: map<string, int>, types: set<string>)
    requires types <= counts.Keys
    requires forall t :: t in counts ==> counts[t] == |OfRoom(b, b.Keys, t)|
    ensures Sum(counts, types) == |OfRooms(b, types)|
    decreases types
  {
    if types == {} {
      assert OfRooms(b, types) == {};
    } else {
      var t :| t in types;
      SumRemove(counts, types, t);
      CountsOverTypes(b, counts, types - {t});
      OfRoomsSplit(b, types, t);
    }
  }

  /** The bookings of a set of types are those of one type plus, disjointly, those of the others. */
  lemma OfRoomsSplit(b: map<string, Booking>, types: set<string>, t: string)
    requires t in types
    ensures OfRooms(b, types) == OfRooms(b, types - {t}) + OfRoom(b, b.Keys, t)
    ensures OfRooms(b, types - {t}) !! OfRoom(b, b.Keys, t)
    ensures |OfRooms(b, types)| == |OfRooms(b, types - {t})| + |OfRoom(b, b.Keys, t)|
  {
    assert OfRooms(b, types) == OfRooms(b, types - {t}) + OfRoom(b, b.Keys, t);
  }

  /** `roomCount` holds, per room type occurring among `done`, its number of bookings. */
  ghost predicate RoomCounts(b: map<string, Booking>, done: set<string>, roomCount: map<string, int>) {
    && roomCount.Keys == RoomTypes(b, done)
    && forall t :: t in roomCount ==> roomCount[t] == |OfRoom(b, done, t)|
  }

  /** `roomRevenue` holds, per room type occurring among `done`, the sum of its costs. */
  ghost predicate RoomRevenues(b: map<string, Booking>, done: set<string>, roomRevenue: map<string, int>)
    requires done <= b.Keys
  {
    && roomRevenue.Keys == RoomTypes(b, done)
    && forall t :: t in roomRevenue ==> roomRevenue[t] == Sum(Costs(b), OfRoom(b, done, t))
  }

  /** One step of the counting: the booking `k` adds one to the count of its room type. */
  lemma RoomCountStep(b: map<string, Booking>, done: set<string>, k: string,
                      roomCount: map<string, int>, roomCount': map<string, int>)
    requires k in b && k !in done
    requires RoomCounts(b, done, roomCount)
    requires roomCount' == roomCount[b[k].roomType := if b[k].roomType in roomCount then roomCount[b[k].roomType] + 1 else 1]
    ensures RoomCounts(b, done + {k}, roomCount')
  {
    OfRoomAdd(b, done, k);
  }

  /** One step of the summing: the booking `k` adds its cost to the revenue of its room type. */
  lemma RoomRevenueStep(b: map<string, Booking>, done: set<string>, k: string,
                        roomRevenue: map<string, int>, roomRevenue': map<string, int>)
    requires done <= b.Keys && k in b && k !in done
    requires RoomRevenues(b, done, roomRevenue)
    requires roomRevenue' == roomRevenue[b[k].roomType :=
      (if b[k].roomType in roomRevenue then roomRevenue[b[k].roomType] else 0) + b[k].cost]
    ensures RoomRevenues(b, done + {k}, roomRevenue')
  {
    OfRoomAdd(b, done, k);
    SumAdd(Costs(b), OfRoom(b, done, b[k].roomType), k);
  }

  /**
   * The `roomCounts` loop of `generateSummaryReport`: one entry per room
   * type that occurs, holding its number of bookings; the entries add up to
   * the number of bookings.
   */
  method CountBookingsByRoom(b: map<string, Booking>) returns (roomCounts: map<string, int>)
    ensures roomCounts.Keys == RoomTypes(b, b.Keys)
    ensures forall t :: t in roomCounts ==> roomCounts[t] == |OfRoom(b, b.Keys, t)|
    ensures Sum(roomCounts, roomCounts.Keys) == |b|
  {
    roomCounts := map[];
    var rest := b.Keys;
    ghost var done: set<string> := {};
    while rest != {}
      invariant rest + done == b.Keys && rest !! done
      invariant RoomCounts(b, done, roomCounts)
      decreases rest
    {
      var k :| k in rest;
      var t := b[k].roomType;
      var counted := roomCounts[t := if t in roomCounts then roomCounts[t] + 1 else 1];
      RoomCountStep(b, done, k, roomCounts, counted);
      roomCounts := counted;
      done, rest := done + {k}, rest - {k};
    }
    RoomCountsTotal(b, roomCounts);
  }

  /** The complete per-type counts add up to the number of bookings. */
  lemma RoomCountsTotal(b: map<string, Booking>, roomCounts: map<string, int>)
    requires RoomCounts(b, b.Keys, roomCounts)
    ensures Sum(roomCounts, roomCounts.Keys) == |b|
  {
    CountsOverTypes(b, roomCounts, roomCounts.Keys);
    assert OfRooms(b, roomCounts.Keys) == b.Keys;
  }

  /**
   * The `forEach` of `generateRoomAnalysis`: for every room type that
   * occurs, its number of bookings and the sum of their costs.
   */
  method AccumulateRoomTotals(b: map<string, Booking>) returns (roomRevenue: map<string, int>, roomCount: map<string, int>)
    ensures roomRevenue.Keys == roomCount.Keys == RoomTypes(b, b.Keys)
    ensures forall t :: t in roomCount ==> roomCount[t] == |OfRoom(b, b.Keys, t)|
    ensures forall t :: t in roomRevenue ==> roomRevenue[t] == Sum(Costs(b), OfRoom(b, b.Keys, t))
  {
    roomRevenue, roomCount := map[], map[];
    var rest := b.Keys;
    ghost var done: set<string> := {};
    while rest != {}
      invariant rest + done == b.Keys && rest !! done
      invariant RoomRevenues(b, done, roomRevenue)
      invariant RoomCounts(b, done, roomCount)
      decreases rest
    {
      var k :| k in rest;
      var t := b[k].roomType;
      var revenue := roomRevenue[t := (if t in roomRevenue then roomRevenue[t] else 0) + b[k].cost];
      var count := roomCount[t := if t in roomCount then roomCount[t] + 1 else 1];
      RoomRevenueStep(b, done, k, roomRevenue, revenue);
      RoomCountStep(b, done, k, roomCount, count);
      roomRevenue, roomCount := revenue, count;
      done, rest := done + {k}, rest - {k};
    }
  }

  /** One row of the room-type analysis. */
  datatype RoomRow = RoomRow(roomType: string, bookings: int, revenue: int, average: int)

  /** What the analysis shows for room type `t`: 0 bookings give average 0 instead of a division by zero. */
  ghost function RoomLine(b: map<string, Booking>, t: string): RoomRow {
    var count := |OfRoom(b, b.Keys, t)|;
    var revenue := Sum(Costs(b), OfRoom(b, b.Keys, t));
    RoomRow(t, count, revenue, if count > 0 then Quotient(revenue, count) else 0)
  }

  /**
   * `generateRoomAnalysis`: the accumulation above, then one row for each of
   * Single, Double and Suite, with count and revenue defaulting to 0.
   */
  method GenerateRoomAnalysis(b: map<string, Booking>) returns (rows: seq<RoomRow>)
    ensures |rows| == |ROOM_TYPES|
    ensures forall i :: 0 <= i < |ROOM_TYPES| ==> rows[i] == RoomLine(b, ROOM_TYPES[i])
  {
    var roomRevenue, roomCount := AccumulateRoomTotals(b);
    rows := [];
    for i := 0 to |ROOM_TYPES|
      invariant |rows| == i
      invariant forall j :: 0 <= j < i ==> rows[j] == RoomLine(b, ROOM_TYPES[j])
    {
      var t := ROOM_TYPES[i];
      assert t !in roomCount ==> OfRoom(b, b.Keys, t) == {};
      var count := if t in roomCount then roomCount[t] else 0;
      var revenue := if t in roomRevenue then roomRevenue[t] else 0;
      var average := if count > 0 then Quotient(revenue, count) else 0;
      rows := rows + [RoomRow(t, count, revenue, average)];
    }
  }

  /**
   * The average is guarded: with no bookings both revenue and average are
   * 0; otherwise, for a non-negative revenue, it is the revenue divided by
   * the bookings, rounded down.
   */
  lemma RoomAverageGuard(b: map<string, Booking>, t: string)
    ensures RoomLine(b, t).bookings == 0 ==> RoomLine(b, t).average == 0 && RoomLine(b, t).revenue == 0
    ensures RoomLine(b, t).bookings > 0 && RoomLine(b, t).revenue >= 0 ==>
      var line := RoomLine(b, t);
      line.average * line.bookings <= line.revenue < (line.average + 1) * line.bookings
  {
    var line := RoomLine(b, t);
    if line.bookings == 0 {
      assert OfRoom(b, b.Keys, t) == {};
    }
  }

  /** Every booking costs at least one night of its room type. */
  ghost predicate CostsAtLeastRates(b: map<string, Booking>) {
    forall k :: k in b ==> b[k].cost >= Rate(b[k].roomType)
  }

  /** The bookings of reservations cost at least one night each, as the cost snapshot guarantees. */
  lemma BookingsCostAtLeastRate(m: map<string, Reservation>)
    ensures CostsAtLeastRates(Bookings(m))
  {
  }

  /**
   * When every booking costs at least one night, the average per booking of
   * a room type that has bookings is at least that room type's nightly rate.
   */
  lemma RoomAverageAtLeastRate(b: map<string, Booking>, t: string)
    requires CostsAtLeastRates(b)
    requires RoomLine(b, t).bookings > 0
    ensures RoomLine(b, t).average >= Rate(t)
  {
    var keys := OfRoom(b, b.Keys, t);
    SumAtLeast(Costs(b), keys, Rate(t));
    QuotientAtLeast(Sum(Costs(b), keys), |keys|, Rate(t));
  }

  /** A total of at least `count` times `floor` averages at least `floor`. */
  lemma QuotientAtLeast(total: int, count: int, floor: int)
    requires count > 0 && floor >= 0 && total >= count * floor
    ensures Quotient(total, count) >= floor
  {
    var q, r := total / count, total % count;
    assert total == count * q + r && r < count;
    if q < floor {
      MulMonotone(count, q + 1, floor);
      assert false;
    }
  }

  /**
   * When every booking is a Single, Double or Suite, the three rows of the
   * analysis account for every booking and for the whole revenue.
   */
  lemma RoomRowsCoverAll(b: map<string, Booking>)
    requires forall k :: k in b ==> b[k].roomType in ROOM_TYPES
    ensures RoomLine(b, SINGLE).bookings + RoomLine(b, DOUBLE).bookings + RoomLine(b, SUITE).bookings == |b|
    ensures RoomLine(b, SINGLE).revenue + RoomLine(b, DOUBLE).revenue + RoomLine(b, SUITE).revenue == TotalRevenue(b)
  {
    var s, d, u := OfRoom(b, b.Keys, SINGLE), OfRoom(b, b.Keys, DOUBLE), OfRoom(b, b.Keys, SUITE);
    RoomClasses(b);
    SumThree(Costs(b), s, d, u);
  }

  /** With only the three listed room types, their booking classes split the keys. */
  lemma RoomClasses(b: map<string, Booking>)
    requires forall k :: k in b ==> b[k].roomType in ROOM_TYPES
    ensures var s, d, u := OfRoom(b, b.Keys, SINGLE), OfRoom(b, b.Keys, DOUBLE), OfRoom(b, b.Keys, SUITE);
      s !! d && (s + d) !! u && b.Keys == s + d + u
  {
  }

  /** A sum over three disjoint key sets is the sum of the three sums. */
  lemma SumThree(f: map<string, int>, s: set<string>, d: set<string>, u: set<string>)
    requires s <= f.Keys && d <= f.Keys && u <= f.Keys
    requires s !! d && (s + d) !! u
    ensures Sum(f, s + d + u) == Sum(f, s) + Sum(f, d) + Sum(f, u)
  {
    SumUnion(f, s, d);
    SumUnion(f, s + d, u);
  }
}
