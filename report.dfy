/** Fares and per-driver reports (package unter, report.go). */
module Report {
  import opened Unter

  const MinFee: int := 250   // cents
  const PerMile: int := 250  // cents per mile
  const PerHour: int := 3000 // cents per whole hour
  /** The amount ByDriver takes off every fee before paying the driver. */
  const PlatformCut: int := 30

  /** Go's integer `/`, which truncates toward zero. */
  function TruncDiv(a: int, b: int): int
    requires b > 0
  {
    if a >= 0 then a / b else -((-a) / b)
  }

  /** `duration/time.Minute/60`: the hours of a duration, counted whole. */
  function WholeHours(duration: Duration): (hours: int)
    ensures hours == TruncDiv(duration, Hour)
  {
    NestedDivision(duration);
    TruncDiv(TruncDiv(duration, Minute), 60)
  }

  /** Dividing by minutes and then by 60 is dividing by hours. */
  lemma NestedDivision(duration: Duration)
    ensures TruncDiv(TruncDiv(duration, Minute), 60) == TruncDiv(duration, Hour)
  {
    var hours := TruncDiv(TruncDiv(duration, Minute), 60);
    if duration >= 0 {
      var q := duration / Minute;
      assert q * Minute <= duration < (q + 1) * Minute;
      assert hours * 60 <= q < (hours + 1) * 60;
    } else {
      var q := (-(duration as int)) / Minute;
      assert q * Minute <= -(duration as int) < (q + 1) * Minute;
      assert -hours * 60 <= q < (-hours + 1) * 60;
    }
  }

  /** A duration is charged for the whole hours it holds, and a duration
      under one hour, in either direction, for none. */
  lemma WholeHoursTruncates(duration: Duration)
    ensures duration >= 0 ==> WholeHours(duration) * Hour <= duration < (WholeHours(duration) + 1) * Hour
    ensures duration <= 0 ==> (WholeHours(duration) - 1) * Hour < duration <= WholeHours(duration) * Hour
    ensures WholeHours(duration) == 0 <==> -Hour < duration < Hour
  {
  }

  /** The package's own max on float64. */
  function Max(a: real, b: real): (m: real)
    ensures m >= a && m >= b
    ensures m == a || m == b
  {
    if a > b then a else b
  }

  /** Go's int(x) on a float64: truncation toward zero. */
  function Truncate(x: real): (n: int)
    ensures x >= 0.0 ==> n as real <= x < n as real + 1.0
    ensures x <= 0.0 ==> n as real - 1.0 < x <= n as real
  {
    if x >= 0.0 then x.Floor else -((-x).Floor)
  }

  function IntMax(a: int, b: int): int {
    if a > b then a else b
  }

  /** RideFee, in cents. The larger of the distance charge and the
      whole-hours charge, at least MinFee, less 10% for a shared ride,
      truncated to a whole cent. */
  function RideFee(duration: Duration, distance: real, shared: bool): (fee: int)
    ensures !shared ==> fee >= MinFee
    ensures shared ==> fee >= 225
    ensures !shared ==> fee == IntMax(IntMax((PerMile as real * distance).Floor, PerHour * WholeHours(duration)), MinFee)
  {
    var byDistance := PerMile as real * distance;
    var byTime := PerHour as real * WholeHours(duration) as real;
    var fee := Max(Max(byDistance, byTime), MinFee as real);
    var fee := if shared then 0.9 * fee else fee;
    Truncate(fee)
  }

  lemma FeeVectors()
    ensures RideFee(Second, 0.1, false) == 250
    ensures RideFee(3 * Minute, 3.0, false) == 750
    ensures RideFee(7 * Hour, 3.0, false) == 21000
    ensures RideFee(3 * Minute, 3.0, true) == 675
  {
    assert WholeHours(Second) == 0;
    assert WholeHours(3 * Minute) == 0;
    assert WholeHours(7 * Hour) == 7;
  }

  /** Under one hour, in either direction, the time charge is nothing: the
      fee is what a zero duration gives. */
  lemma SubHourIgnoresTime(duration: Duration, distance: real, shared: bool)
    requires -Hour < duration < Hour
    ensures RideFee(duration, distance, shared) == RideFee(0, distance, shared)
  {
    WholeHoursTruncates(duration);
    WholeHoursTruncates(0);
  }

  /** A shared ride pays no more than a private one, and at most one cent
      more than 90% of the private fee truncated. */
  lemma SharedWithinOneCent(duration: Duration, distance: real)
    ensures RideFee(duration, distance, true) <= RideFee(duration, distance, false)
    ensures (0.9 * RideFee(duration, distance, false) as real).Floor <= RideFee(duration, distance, true)
    ensures RideFee(duration, distance, true) <= (0.9 * RideFee(duration, distance, false) as real).Floor + 1
  {
  }

  /** When the distance charge is a whole number of cents, the shared fee is
      exactly 90% of the private fee, truncated. */
  lemma SharedIsNinetyPercent(duration: Duration, distance: real)
    requires (PerMile as real * distance).Floor as real == PerMile as real * distance
    ensures RideFee(duration, distance, true) == (0.9 * RideFee(duration, distance, false) as real).Floor
  {
  }

  /** With a fractional distance charge the two differ: 1.01 miles cost 252.5
      cents before truncation, so a private ride pays 252, a shared one 227,
      and 90% of 252 truncates to 226. */
  lemma SharedIsNotNinetyPercentOfPrivate()
    ensures RideFee(0, 1.01, false) == 252
    ensures RideFee(0, 1.01, true) == 227
    ensures (0.9 * RideFee(0, 1.01, false) as real).Floor == 226
  {
  }

  datatype Report = Report(driver: string, numRides: int, payment: int)

  /** What one ride adds to its driver's payment. Every ride counts, open
      ones too: an unset end gives a negative duration. */
  function NetPayment(r: Ride): (net: int)
    ensures net >= 225 - PlatformCut
    ensures r.kind != Shared ==> net >= MinFee - PlatformCut
  {
    RideFee(Sub(r.end, r.start), r.distance, r.kind == Shared) - PlatformCut
  }

  /** The sum of f over the rides. */
  function SumOver(rides: seq<Ride>, f: Ride -> int): int
    decreases |rides|
  {
    if rides == [] then 0 else SumOver(rides[..|rides| - 1], f) + f(rides[|rides| - 1])
  }

  function CountOf(driver: string): Ride -> int {
    (r: Ride) => if r.driver == driver then 1 else 0
  }

  function PaidTo(driver: string): Ride -> int {
    (r: Ride) => if r.driver == driver then NetPayment(r) else 0
  }

  /** The number of rides of a driver. */
  function NumRidesOf(rides: seq<Ride>, driver: string): int {
    SumOver(rides, CountOf(driver))
  }

  /** The payment of a driver: the net payment of each of their rides, summed. */
  function PaymentOf(rides: seq<Ride>, driver: string): int {
    SumOver(rides, PaidTo(driver))
  }

  /** The report ByDriver owes a driver. */
  function ReportOf(rides: seq<Ride>, driver: string): Report {
    Report(driver, NumRidesOf(rides, driver), PaymentOf(rides, driver))
  }

  /** The drivers that have a ride. */
  function Drivers(rides: seq<Ride>): set<string>
    decreases |rides|
  {
    if rides == [] then {} else Drivers(rides[..|rides| - 1]) + {rides[|rides| - 1].driver}
  }

  /** The drivers that have a report. */
  function DriversOf(reports: seq<Report>): set<string>
    decreases |reports|
  {
    if reports == [] then {} else DriversOf(reports[..|reports| - 1]) + {reports[|reports| - 1].driver}
  }

  predicate DistinctDrivers(reports: seq<Report>) {
    forall i, j :: 0 <= i < j < |reports| ==> reports[i].driver != reports[j].driver
  }

  function TotalRides(reports: seq<Report>): int
    decreases |reports|
  {
    if reports == [] then 0 else TotalRides(reports[..|reports| - 1]) + reports[|reports| - 1].numRides
  }

  /** ByDriver: exactly one report per driver that has a ride, with that
      driver's ride count and payment, in no particular order. */
  method ByDriver(rides: seq<Ride>) returns (reports: seq<Report>)
    ensures DriversOf(reports) == Drivers(rides)
    ensures DistinctDrivers(reports)
    ensures forall k :: 0 <= k < |reports| ==> reports[k] == ReportOf(rides, reports[k].driver)
    ensures TotalRides(reports) == |rides|
  {
    var rs: map<string, Report> := map[];
    var i := 0;
    while i < |rides|
      invariant 0 <= i <= |rides|
      invariant rs.Keys == Drivers(rides[..i])
      invariant forall d :: d in rs ==> rs[d] == ReportOf(rides[..i], d)
    {
      var r := rides[i];
      var rp := if r.driver in rs then rs[r.driver] else Report(r.driver, 0, 0);
      rp := rp.(numRides := rp.numRides + 1);
      var duration := Sub(r.end, r.start);
      rp := rp.(payment := rp.payment + RideFee(duration, r.distance, r.kind == Shared) - PlatformCut);
      assert rides[..i + 1] == rides[..i] + [r];
      TallyPreserved(rs, rides[..i], r);
      rs := rs[r.driver := rp];
      i := i + 1;
    }
    assert rides[..i] == rides;
    reports := Flatten(rs);
    TotalOfReports(rides, reports);
  }

  /** The second loop of ByDriver: the reports of a map, in the map's
      (unspecified) iteration order. */
  method Flatten(rs: map<string, Report>) returns (reports: seq<Report>)
    requires forall d :: d in rs ==> rs[d].driver == d
    ensures forall k :: 0 <= k < |reports| ==> reports[k].driver in rs && reports[k] == rs[reports[k].driver]
    ensures DistinctDrivers(reports)
    ensures DriversOf(reports) == rs.Keys
  {
    reports := [];
    var left := rs.Keys;
    while left != {}
      invariant left <= rs.Keys
      invariant forall k :: 0 <= k < |reports| ==> reports[k].driver in rs && reports[k] == rs[reports[k].driver]
      invariant forall k :: 0 <= k < |reports| ==> reports[k].driver !in left
      invariant DistinctDrivers(reports)
      invariant DriversOf(reports) + left == rs.Keys
      decreases |left|
    {
      var d :| d in left;
      assert (reports + [rs[d]])[..|reports|] == reports;
      reports := reports + [rs[d]];
      left := left - {d};
    }
  }

  /** One pass of ByDriver's first loop keeps the map equal to the tally. */
  lemma TallyPreserved(rs: map<string, Report>, p: seq<Ride>, r: Ride)
    requires rs.Keys == Drivers(p)
    requires forall d :: d in rs ==> rs[d] == ReportOf(p, d)
    ensures var prior := if r.driver in rs then rs[r.driver] else Report(r.driver, 0, 0);
      var rs' := rs[r.driver := Report(r.driver, prior.numRides + 1, prior.payment + NetPayment(r))];
      rs'.Keys == Drivers(p + [r]) && forall d :: d in rs' ==> rs'[d] == ReportOf(p + [r], d)
  {
    TallyStep(p + [r], p, r);
  }

  /** What one more ride changes in the tally. */
  lemma TallyStep(q: seq<Ride>, p: seq<Ride>, r: Ride)
    requires q == p + [r]
    ensures Drivers(q) == Drivers(p) + {r.driver}
    ensures forall d :: ReportOf(q, d) == Report(d, NumRidesOf(p, d) + CountOf(d)(r), PaymentOf(p, d) + PaidTo(d)(r))
    ensures r.driver !in Drivers(p) ==> NumRidesOf(p, r.driver) == 0 && PaymentOf(p, r.driver) == 0
  {
    assert q[..|p|] == p;
    if r.driver !in Drivers(p) {
      AbsentDriver(p, r.driver);
    }
  }

  lemma {:induction false} AbsentDriver(rides: seq<Ride>, driver: string)
    requires driver !in Drivers(rides)
    ensures NumRidesOf(rides, driver) == 0 && PaymentOf(rides, driver) == 0
    decreases |rides|
  {
    if rides != [] {
      AbsentDriver(rides[..|rides| - 1], driver);
    }
  }

  /** A driver has a report exactly when they have at least one ride. */
  lemma {:induction false} PresentDriver(rides: seq<Ride>, driver: string)
    ensures driver in Drivers(rides) <==> NumRidesOf(rides, driver) >= 1
    ensures NumRidesOf(rides, driver) >= 0
    decreases |rides|
  {
    if rides != [] {
      PresentDriver(rides[..|rides| - 1], driver);
    }
  }

  /** Every ride pays its driver at least the smallest shared fee less the cut. */
  lemma {:induction false} PaymentAtLeastMinimum(rides: seq<Ride>, driver: string)
    ensures PaymentOf(rides, driver) >= (225 - PlatformCut) * NumRidesOf(rides, driver)
    decreases |rides|
  {
    if rides != [] {
      PaymentAtLeastMinimum(rides[..|rides| - 1], driver);
    }
  }

  lemma {:induction false} SumOverAppend(a: seq<Ride>, b: seq<Ride>, f: Ride -> int)
    ensures SumOver(a + b, f) == SumOver(a, f) + SumOver(b, f)
    decreases |b|
  {
    if b == [] {
      assert a + b == a;
    } else {
      var b' := b[..|b| - 1];
      assert (a + b)[..|a + b| - 1] == a + b';
      assert (a + b)[|a + b| - 1] == b[|b| - 1];
      SumOverAppend(a, b', f);
    }
  }

  /** Taking one ride out of a sum. */
  lemma RemoveAt(b: seq<Ride>, i: nat, f: Ride -> int)
    requires i < |b|
    ensures SumOver(b, f) == SumOver(b[..i] + b[i + 1..], f) + f(b[i])
  {
    var x, front, back := b[i], b[..i], b[i + 1..];
    assert b == front + ([x] + back);
    SumOverAppend(front, [x] + back, f);
    SumOverAppend([x], back, f);
    assert SumOver([x], f) == f(x) by {
      assert [x][..0] == [];
    }
    SumOverAppend(front, back, f);
  }

  /** Taking one ride out of a multiset of rides. */
  lemma RemoveFromMultiset(b: seq<Ride>, i: nat)
    requires i < |b|
    ensures multiset(b[..i] + b[i + 1..]) == multiset(b) - multiset{b[i]}
  {
    assert b == b[..i] + ([b[i]] + b[i + 1..]);
  }

  /** A sum over the rides does not depend on their order. */
  lemma {:induction false} SumOverPermutation(a: seq<Ride>, b: seq<Ride>, f: Ride -> int)
    requires multiset(a) == multiset(b)
    ensures SumOver(a, f) == SumOver(b, f)
    decreases |a|
  {
    if a == [] {
      assert |b| == |multiset(b)| == 0;
    } else {
      var a', x := a[..|a| - 1], a[|a| - 1];
      assert a == a' + [x];
      assert multiset(a') == multiset(a) - multiset{x};
      assert x in multiset(b);
      var i :| 0 <= i < |b| && b[i] == x;
      RemoveAt(b, i, f);
      RemoveFromMultiset(b, i);
      SumOverPermutation(a', b[..i] + b[i + 1..], f);
    }
  }

  /** Shuffling the rides changes no driver's report and no driver's
      presence: only the order of ByDriver's output, which it does not fix,
      can differ. */
  lemma ByDriverShuffle(a: seq<Ride>, b: seq<Ride>)
    requires multiset(a) == multiset(b)
    ensures Drivers(a) == Drivers(b)
    ensures forall d :: ReportOf(a, d) == ReportOf(b, d)
  {
    forall d
      ensures ReportOf(a, d) == ReportOf(b, d)
      ensures d in Drivers(a) <==> d in Drivers(b)
    {
      SumOverPermutation(a, b, CountOf(d));
      SumOverPermutation(a, b, PaidTo(d));
      PresentDriver(a, d);
      PresentDriver(b, d);
    }
  }

  /** Two reports that each meet ByDriver's postcondition for rides that are
      a permutation of each other hold the same reports. */
  lemma ShuffledReportsAgree(a: seq<Ride>, ra: seq<Report>, b: seq<Ride>, rb: seq<Report>)
    requires multiset(a) == multiset(b)
    requires DriversOf(ra) == Drivers(a) && forall k :: 0 <= k < |ra| ==> ra[k] == ReportOf(a, ra[k].driver)
    requires DriversOf(rb) == Drivers(b) && forall k :: 0 <= k < |rb| ==> rb[k] == ReportOf(b, rb[k].driver)
    ensures forall x :: x in ra <==> x in rb
  {
    ByDriverShuffle(a, b);
    forall x | x in ra ensures x in rb {
      InDriversOf(ra, x);
      FindDriver(rb, x.driver);
    }
    forall x | x in rb ensures x in ra {
      InDriversOf(rb, x);
      FindDriver(ra, x.driver);
    }
  }

  lemma {:induction false} InDriversOf(reports: seq<Report>, x: Report)
    requires x in reports
    ensures x.driver in DriversOf(reports)
    decreases |reports|
  {
    if reports[|reports| - 1] != x {
      var p := reports[..|reports| - 1];
      assert x in p by {
        var k :| 0 <= k < |reports| && reports[k] == x;
        assert k < |reports| - 1 && p[k] == x;
      }
      InDriversOf(p, x);
    }
  }

  lemma {:induction false} FindDriver(reports: seq<Report>, driver: string)
    requires driver in DriversOf(reports)
    ensures exists k :: 0 <= k < |reports| && reports[k].driver == driver
    decreases |reports|
  {
    var p := reports[..|reports| - 1];
    if reports[|reports| - 1].driver != driver {
      FindDriver(p, driver);
      var k :| 0 <= k < |p| && p[k].driver == driver;
      assert reports[k].driver == driver;
    }
  }

  function CoveredBy(drivers: set<string>): Ride -> int {
    (r: Ride) => if r.driver in drivers then 1 else 0
  }

  /** The ride counts of the drivers of reports, summed. */
  function CountsOf(rides: seq<Ride>, reports: seq<Report>): int
    decreases |reports|
  {
    if reports == [] then 0
    else CountsOf(rides, reports[..|reports| - 1]) + NumRidesOf(rides, reports[|reports| - 1].driver)
  }

  function Occurrences(reports: seq<Report>, driver: string): int
    decreases |reports|
  {
    if reports == [] then 0
    else Occurrences(reports[..|reports| - 1], driver) + (if reports[|reports| - 1].driver == driver then 1 else 0)
  }

  lemma {:induction false} CountsOfAppend(rides: seq<Ride>, r: Ride, reports: seq<Report>)
    ensures CountsOf(rides + [r], reports) == CountsOf(rides, reports) + Occurrences(reports, r.driver)
    decreases |reports|
  {
    assert (rides + [r])[..|rides|] == rides;
    if reports != [] {
      CountsOfAppend(rides, r, reports[..|reports| - 1]);
    }
  }

  lemma {:induction false} DistinctOccurrences(reports: seq<Report>, driver: string)
    requires DistinctDrivers(reports)
    ensures Occurrences(reports, driver) == if driver in DriversOf(reports) then 1 else 0
    decreases |reports|
  {
    if reports != [] {
      var p := reports[..|reports| - 1];
      DistinctOccurrences(p, driver);
      if driver == reports[|reports| - 1].driver && driver in DriversOf(p) {
        FindDriver(p, driver);
        assert false;
      }
    }
  }

  lemma {:induction false} CountsOfEmpty(reports: seq<Report>)
    ensures CountsOf([], reports) == 0
    decreases |reports|
  {
    if reports != [] {
      CountsOfEmpty(reports[..|reports| - 1]);
    }
  }

  lemma {:induction false} CountsOfCovered(rides: seq<Ride>, reports: seq<Report>)
    requires DistinctDrivers(reports)
    ensures CountsOf(rides, reports) == SumOver(rides, CoveredBy(DriversOf(reports)))
    decreases |rides|
  {
    if rides == [] {
      CountsOfEmpty(reports);
    } else {
      var p, r := rides[..|rides| - 1], rides[|rides| - 1];
      assert rides == p + [r];
      CountsOfAppend(p, r, reports);
      DistinctOccurrences(reports, r.driver);
      CountsOfCovered(p, reports);
    }
  }

  lemma {:induction false} AllCovered(rides: seq<Ride>, drivers: set<string>)
    requires Drivers(rides) <= drivers
    ensures SumOver(rides, CoveredBy(drivers)) == |rides|
    decreases |rides|
  {
    if rides != [] {
      AllCovered(rides[..|rides| - 1], drivers);
    }
  }

  lemma {:induction false} TotalIsCounts(rides: seq<Ride>, reports: seq<Report>)
    requires forall k :: 0 <= k < |reports| ==> reports[k].numRides == NumRidesOf(rides, reports[k].driver)
    ensures TotalRides(reports) == CountsOf(rides, reports)
    decreases |reports|
  {
    if reports != [] {
      TotalIsCounts(rides, reports[..|reports| - 1]);
    }
  }

  /** The ride counts of a full set of reports add up to the number of rides. */
  lemma TotalOfReports(rides: seq<Ride>, reports: seq<Report>)
    requires DriversOf(reports) == Drivers(rides)
    requires DistinctDrivers(reports)
    requires forall k :: 0 <= k < |reports| ==> reports[k].numRides == NumRidesOf(rides, reports[k].driver)
    ensures TotalRides(reports) == |rides|
  {
    TotalIsCounts(rides, reports);
    CountsOfCovered(rides, reports);
    AllCovered(rides, DriversOf(reports));
  }
}
