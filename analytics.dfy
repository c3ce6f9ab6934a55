/**
 * The dashboard's aggregates over one owner's records: the four counters of
 * `/dashboard-stats` and the month-by-month series of `/monthly-growth` and
 * `/monthly-revenue`. Each is computed over `OwnedBy(records, owner)`, the
 * records the owner's query finds.
 */
module Analytics {
  import opened Money
  import opened ObjectIds
  import opened StudentFeeSchema

  /** `StudentFee.find({ owner })`: the owner's records, in stored order. */
  function OwnedBy(records: seq<StudentFee>, owner: ObjectId): (r: seq<StudentFee>)
    ensures |r| <= |records|
    ensures forall x :: x in r <==> x in records && x.owner == owner
  {
    if records == [] then []
    else (if records[0].owner == owner then [records[0]] else []) + OwnedBy(records[1..], owner)
  }

  predicate IsFullyPaid(r: StudentFee)
    ensures IsFullyPaid(r) <==> Remaining(r) == 0
  {
    r.feesPaid == r.totalFees
  }

  /** `students.filter(s => s.feesPaid === s.totalFees).length` */
  function CountFullyPaid(s: seq<StudentFee>): (n: nat)
    ensures n <= |s|
  {
    if s == [] then 0 else (if IsFullyPaid(s[0]) then 1 else 0) + CountFullyPaid(s[1..])
  }

  /** The number of records whose remaining balance is not zero. */
  function CountWithBalance(s: seq<StudentFee>): nat
  {
    if s == [] then 0 else (if Remaining(s[0]) != 0 then 1 else 0) + CountWithBalance(s[1..])
  }

  /** `students.reduce((sum, s) => sum + s.feesPaid, 0)` */
  function SumFeesPaid(s: seq<StudentFee>): (t: Paise)
    ensures (forall i :: 0 <= i < |s| ==> s[i].feesPaid >= 0) ==> t >= 0
  {
    if s == [] then 0 else s[0].feesPaid + SumFeesPaid(s[1..])
  }

  datatype DashboardStats = DashboardStats(totalStudents: nat, totalRevenue: Paise, fullyPaid: nat, remaining: int)

  /** The four counters of `/dashboard-stats` for `owner`. */
  function Stats(records: seq<StudentFee>, owner: ObjectId): (st: DashboardStats)
    ensures st.totalStudents == |OwnedBy(records, owner)|
    ensures st.totalRevenue == SumFeesPaid(OwnedBy(records, owner))
    ensures 0 <= st.fullyPaid <= st.totalStudents
    ensures st.remaining == st.totalStudents - st.fullyPaid && 0 <= st.remaining <= st.totalStudents
  {
    var students := OwnedBy(records, owner);
    var totalStudents := |students|;
    var fullyPaid := CountFullyPaid(students);
    DashboardStats(totalStudents, SumFeesPaid(students), fullyPaid, totalStudents - fullyPaid)
  }

  /** Each record is either fully paid or has a balance left, never both. */
  lemma {:induction false} FullyPaidSplit(s: seq<StudentFee>)
    ensures CountFullyPaid(s) + CountWithBalance(s) == |s|
  {
    if s != [] {
      FullyPaidSplit(s[1..]);
    }
  }

  /** The counter named `remaining` counts students who still have a balance (not an amount of money). */
  lemma RemainingCountsStudentsWithBalance(records: seq<StudentFee>, owner: ObjectId)
    ensures Stats(records, owner).remaining == CountWithBalance(OwnedBy(records, owner))
  {
    FullyPaidSplit(OwnedBy(records, owner));
  }

  /** Appending a record to the collection: the owner's records gain it at the end. */
  lemma {:induction false} OwnedByAppend(records: seq<StudentFee>, x: StudentFee, owner: ObjectId)
    ensures OwnedBy(records + [x], owner) == OwnedBy(records, owner) + (if x.owner == owner then [x] else [])
  {
    if records != [] {
      assert (records + [x])[1..] == records[1..] + [x];
      OwnedByAppend(records[1..], x, owner);
    } else {
      assert OwnedBy([x], owner) == (if x.owner == owner then [x] else []) + OwnedBy([], owner);
    }
  }

  lemma {:induction false} AggregatesAppend(s: seq<StudentFee>, t: seq<StudentFee>)
    ensures CountFullyPaid(s + t) == CountFullyPaid(s) + CountFullyPaid(t)
    ensures SumFeesPaid(s + t) == SumFeesPaid(s) + SumFeesPaid(t)
  {
    if s != [] {
      assert (s + t)[1..] == s[1..] + t;
      AggregatesAppend(s[1..], t);
    } else {
      assert s + t == t;
    }
  }

  /**
   * Adding a record for `owner` adds one student, adds its `feesPaid` to the
   * revenue, and adds one fully-paid student exactly when its paid amount
   * equals its total; a record of another owner changes none of the counters.
   */
  lemma StatsAfterAppend(records: seq<StudentFee>, x: StudentFee, owner: ObjectId)
    ensures x.owner == owner ==>
      var before, after := Stats(records, owner), Stats(records + [x], owner);
      && after.totalStudents == before.totalStudents + 1
      && after.totalRevenue == before.totalRevenue + x.feesPaid
      && after.fullyPaid == before.fullyPaid + (if IsFullyPaid(x) then 1 else 0)
    ensures x.owner != owner ==> Stats(records + [x], owner) == Stats(records, owner)
  {
    OwnedByAppend(records, x, owner);
    AggregatesAppend(OwnedBy(records, owner), if x.owner == owner then [x] else []);
    if x.owner == owner {
      assert CountFullyPaid([x]) == (if IsFullyPaid(x) then 1 else 0) + CountFullyPaid([]);
    } else {
      assert OwnedBy(records, owner) + [] == OwnedBy(records, owner);
    }
  }

  /**
   * Replacing one record by one with the same owner: the owner's student
   * count stays, and the revenue and fully-paid counters move by the
   * difference between the two records.
   */
  lemma StatsAfterReplace(records: seq<StudentFee>, i: nat, y: StudentFee, owner: ObjectId)
    requires i < |records| && y.owner == records[i].owner
    ensures var before, after := Stats(records, owner), Stats(records[i := y], owner);
      var mine := y.owner == owner;
      && after.totalStudents == before.totalStudents
      && after.totalRevenue == before.totalRevenue + (if mine then y.feesPaid - records[i].feesPaid else 0)
      && after.fullyPaid == before.fullyPaid
           + (if mine then (if IsFullyPaid(y) then 1 else 0) - (if IsFullyPaid(records[i]) then 1 else 0) else 0)
  {
    var x := records[i];
    var front, back := records[..i], records[i + 1..];
    assert records == front + [x] + back;
    assert records[i := y] == front + [y] + back;
    OwnedBySplit(front, x, back, owner);
    OwnedBySplit(front, y, back, owner);
  }

  /** The owner's part of a list with one record singled out, and its counters. */
  lemma OwnedBySplit(front: seq<StudentFee>, x: StudentFee, back: seq<StudentFee>, owner: ObjectId)
    ensures var p := if x.owner == owner then [x] else [];
      var f, b := OwnedBy(front, owner), OwnedBy(back, owner);
      && OwnedBy(front + [x] + back, owner) == f + p + b
      && CountFullyPaid(f + p + b) == CountFullyPaid(f) + (if x.owner == owner && IsFullyPaid(x) then 1 else 0) + CountFullyPaid(b)
      && SumFeesPaid(f + p + b) == SumFeesPaid(f) + (if x.owner == owner then x.feesPaid else 0) + SumFeesPaid(b)
  {
    var p := if x.owner == owner then [x] else [];
    var f, b := OwnedBy(front, owner), OwnedBy(back, owner);
    assert OwnedBy(front + [x] + back, owner) == f + p + b by {
      OwnedByConcat(front + [x], back, owner);
      OwnedByConcat(front, [x], owner);
      assert OwnedBy([x], owner) == p + OwnedBy([], owner);
      assert p + [] == p;
    }
    AggregatesAppend(f + p, b);
    AggregatesAppend(f, p);
    FullyPaidOfOne(x, owner);
  }

  /** The owner's part of a concatenation is the concatenation of the parts. */
  lemma {:induction false} OwnedByConcat(s: seq<StudentFee>, t: seq<StudentFee>, owner: ObjectId)
    ensures OwnedBy(s + t, owner) == OwnedBy(s, owner) + OwnedBy(t, owner)
  {
    if s == [] {
      assert s + t == t;
    } else {
      assert (s + t)[0] == s[0];
      assert (s + t)[1..] == s[1..] + t;
      OwnedByConcat(s[1..], t, owner);
    }
  }

  /** The counters of the owner's part of a single record. */
  lemma FullyPaidOfOne(x: StudentFee, owner: ObjectId)
    ensures var p := if x.owner == owner then [x] else [];
      && CountFullyPaid(p) == (if x.owner == owner && IsFullyPaid(x) then 1 else 0)
      && SumFeesPaid(p) == (if x.owner == owner then x.feesPaid else 0)
  {
    assert CountFullyPaid([x]) == (if IsFullyPaid(x) then 1 else 0) + CountFullyPaid([]);
  }

  // ---- `/monthly-growth` and `/monthly-revenue` ----

  /** One output document of the `$group` stage: `_id` is the month, `total` the summed field. */
  datatype Bucket = Bucket(month: int, total: int)

  /** `$sum: 1`, the growth series' summand. */
  function One(x: StudentFee): int { 1 }

  /** `$sum: "$feesPaid"`, the revenue series' summand. */
  function FeesPaidOf(x: StudentFee): int { x.feesPaid }

  predicate AdmittedIn(x: StudentFee, m: int)
  {
    x.dateOfAdmission.month == m
  }

  /** The number of records admitted in month `m`. */
  function CountInMonth(s: seq<StudentFee>, m: int): (n: nat)
    ensures n <= |s|
  {
    if s == [] then 0 else (if AdmittedIn(s[0], m) then 1 else 0) + CountInMonth(s[1..], m)
  }

  /** A month has a count exactly when someone was admitted in it. */
  lemma {:induction false} CountInMonthPositive(s: seq<StudentFee>, m: int)
    ensures CountInMonth(s, m) > 0 <==> exists i :: 0 <= i < |s| && AdmittedIn(s[i], m)
  {
    if s != [] {
      CountInMonthPositive(s[1..], m);
      assert forall i :: 1 <= i < |s| ==> s[i] == s[1..][i - 1];
    }
  }

  /** The sum of `w` over the records admitted in month `m`. */
  function TotalInMonth(s: seq<StudentFee>, m: int, w: StudentFee -> int): (t: int)
    ensures (forall i :: 0 <= i < |s| ==> w(s[i]) >= 0) ==> t >= 0
  {
    if s == [] then 0 else (if AdmittedIn(s[0], m) then w(s[0]) else 0) + TotalInMonth(s[1..], m, w)
  }

  /** The sum of `w` over all records. */
  function Total(s: seq<StudentFee>, w: StudentFee -> int): int
  {
    if s == [] then 0 else w(s[0]) + Total(s[1..], w)
  }

  /**
   * `$group` by month of admission summing `w`, then `$sort` by month: one
   * bucket per month from `from` to 12 that has at least one record, in
   * ascending month order.
   */
  function GroupByMonth(s: seq<StudentFee>, w: StudentFee -> int, from: int): (r: seq<Bucket>)
    requires 1 <= from <= 13
    ensures forall k :: 0 <= k < |r| ==>
      from <= r[k].month <= 12 && CountInMonth(s, r[k].month) > 0 && r[k].total == TotalInMonth(s, r[k].month, w)
    ensures forall j, k :: 0 <= j < k < |r| ==> r[j].month < r[k].month
    decreases 13 - from
  {
    if from == 13 then []
    else
      var rest := GroupByMonth(s, w, from + 1);
      if CountInMonth(s, from) > 0 then [Bucket(from, TotalInMonth(s, from, w))] + rest else rest
  }

  /** Every month from `from` on in which someone was admitted has its bucket. */
  lemma {:induction false} GroupByMonthComplete(s: seq<StudentFee>, w: StudentFee -> int, from: int, m: int)
    requires 1 <= from <= m <= 12 && CountInMonth(s, m) > 0
    ensures exists k :: 0 <= k < |GroupByMonth(s, w, from)| && GroupByMonth(s, w, from)[k].month == m
    decreases 13 - from
  {
    if m == from {
      GroupByMonthFirst(s, w, from);
    } else {
      GroupByMonthComplete(s, w, from + 1, m);
      var k :| 0 <= k < |GroupByMonth(s, w, from + 1)| && GroupByMonth(s, w, from + 1)[k].month == m;
      GroupByMonthShift(s, w, from, k);
    }
  }

  /** A month with records heads the buckets from that month on. */
  lemma GroupByMonthFirst(s: seq<StudentFee>, w: StudentFee -> int, from: int)
    requires 1 <= from <= 12 && CountInMonth(s, from) > 0
    ensures |GroupByMonth(s, w, from)| > 0 && GroupByMonth(s, w, from)[0].month == from
  {
    GroupByMonthStep(s, w, from);
    assert (MonthBucket(s, w, from) + GroupByMonth(s, w, from + 1))[0] == MonthBucket(s, w, from)[0];
  }

  /** The buckets after month `from` follow the bucket of `from`, if any. */
  lemma GroupByMonthShift(s: seq<StudentFee>, w: StudentFee -> int, from: int, k: nat)
    requires 1 <= from <= 12 && k < |GroupByMonth(s, w, from + 1)|
    ensures var j := |MonthBucket(s, w, from)| + k;
      j < |GroupByMonth(s, w, from)| && GroupByMonth(s, w, from)[j] == GroupByMonth(s, w, from + 1)[k]
  {
    GroupByMonthStep(s, w, from);
    var rest := GroupByMonth(s, w, from + 1);
    assert (MonthBucket(s, w, from) + rest)[|MonthBucket(s, w, from)| + k] == rest[k];
  }

  /** The bucket of month `m`, if that month has records. */
  function MonthBucket(s: seq<StudentFee>, w: StudentFee -> int, m: int): (b: seq<Bucket>)
    ensures |b| <= 1
    ensures b != [] <==> CountInMonth(s, m) > 0
    ensures b != [] ==> b[0] == Bucket(m, TotalInMonth(s, m, w))
  {
    if CountInMonth(s, m) > 0 then [Bucket(m, TotalInMonth(s, m, w))] else []
  }

  /** One step of the grouping: the bucket of month `from`, if any, before the later ones. */
  lemma GroupByMonthStep(s: seq<StudentFee>, w: StudentFee -> int, from: int)
    requires 1 <= from <= 12
    ensures GroupByMonth(s, w, from) == MonthBucket(s, w, from) + GroupByMonth(s, w, from + 1)
  {
    if CountInMonth(s, from) == 0 {
      assert MonthBucket(s, w, from) + GroupByMonth(s, w, from + 1) == GroupByMonth(s, w, from + 1);
    }
  }

  /** The sum of the buckets' totals. */
  function BucketsTotal(b: seq<Bucket>): int
  {
    if b == [] then 0 else b[0].total + BucketsTotal(b[1..])
  }

  /** The month totals from `from` to 12, empty months included. */
  function MonthTotalsFrom(s: seq<StudentFee>, w: StudentFee -> int, from: int): int
    requires 1 <= from <= 13
    decreases 13 - from
  {
    if from == 13 then 0 else TotalInMonth(s, from, w) + MonthTotalsFrom(s, w, from + 1)
  }

  /** A month without records contributes nothing, whatever is summed. */
  lemma {:induction false} EmptyMonthTotal(s: seq<StudentFee>, m: int, w: StudentFee -> int)
    requires CountInMonth(s, m) == 0
    ensures TotalInMonth(s, m, w) == 0
  {
    if s != [] {
      EmptyMonthTotal(s[1..], m, w);
    }
  }

  lemma {:induction false} BucketsCoverMonths(s: seq<StudentFee>, w: StudentFee -> int, from: int)
    requires 1 <= from <= 13
    ensures BucketsTotal(GroupByMonth(s, w, from)) == MonthTotalsFrom(s, w, from)
    decreases 13 - from
  {
    if from < 13 {
      var g, rest := GroupByMonth(s, w, from), GroupByMonth(s, w, from + 1);
      BucketsCoverMonths(s, w, from + 1);
      if CountInMonth(s, from) == 0 {
        assert g == rest;
        EmptyMonthTotal(s, from, w);
      } else {
        assert g == [Bucket(from, TotalInMonth(s, from, w))] + rest;
        assert g[1..] == rest;
      }
    }
  }

  /** Month totals of a record followed by more records. */
  lemma {:induction false} MonthTotalsCons(s: seq<StudentFee>, w: StudentFee -> int, from: int)
    requires s != [] && 1 <= from <= 13
    ensures MonthTotalsFrom(s, w, from)
      == MonthTotalsFrom(s[1..], w, from) + (if from <= s[0].dateOfAdmission.month <= 12 then w(s[0]) else 0)
    decreases 13 - from
  {
    if from < 13 {
      MonthTotalsCons(s, w, from + 1);
    }
  }

  predicate AdmissionMonthsValid(s: seq<StudentFee>)
  {
    forall i :: 0 <= i < |s| ==> 1 <= s[i].dateOfAdmission.month <= 12
  }

  /** When every record has a real month of admission, the twelve months together hold everything. */
  lemma {:induction false} MonthTotalsAll(s: seq<StudentFee>, w: StudentFee -> int)
    requires AdmissionMonthsValid(s)
    ensures MonthTotalsFrom(s, w, 1) == Total(s, w)
  {
    if s != [] {
      MonthTotalsCons(s, w, 1);
      MonthTotalsAll(s[1..], w);
    }
  }

  /** The buckets of a grouping sum to the total over all records. */
  lemma GroupingPreservesTotal(s: seq<StudentFee>, w: StudentFee -> int)
    requires AdmissionMonthsValid(s)
    ensures BucketsTotal(GroupByMonth(s, w, 1)) == Total(s, w)
  {
    BucketsCoverMonths(s, w, 1);
    MonthTotalsAll(s, w);
  }

  lemma {:induction false} TotalOfOne(s: seq<StudentFee>)
    ensures Total(s, One) == |s|
  {
    if s != [] {
      TotalOfOne(s[1..]);
    }
  }

  lemma {:induction false} TotalOfFeesPaid(s: seq<StudentFee>)
    ensures Total(s, FeesPaidOf) == SumFeesPaid(s)
  {
    if s != [] {
      TotalOfFeesPaid(s[1..]);
    }
  }

  const MonthNames: seq<string> := ["Jan", "Feb", "Mar", "Apr", "May", "Jun", "Jul", "Aug", "Sep", "Oct", "Nov", "Dec"]

  /** `monthNames[m - 1]` */
  function MonthName(m: int): (r: string)
    requires 1 <= m <= 12
    ensures |r| == 3
  {
    MonthNames[m - 1]
  }

  /** The month number a three-letter name stands for, 0 for any other text. */
  function MonthNumber(name: string): (m: int)
    ensures 0 <= m <= 12
    ensures m != 0 ==> MonthName(m) == name
  {
    if name == "Jan" then 1 else if name == "Feb" then 2 else if name == "Mar" then 3
    else if name == "Apr" then 4 else if name == "May" then 5 else if name == "Jun" then 6
    else if name == "Jul" then 7 else if name == "Aug" then 8 else if name == "Sep" then 9
    else if name == "Oct" then 10 else if name == "Nov" then 11 else if name == "Dec" then 12
    else 0
  }

  /** Month names are distinct: a name gives back the month it was made from. */
  lemma MonthNameRoundTrip(m: int)
    requires 1 <= m <= 12
    ensures MonthNumber(MonthName(m)) == m
  {
    assert MonthName(m) in MonthNames;
  }

  /** One row of `/monthly-growth`. */
  datatype GrowthPoint = GrowthPoint(name: string, students: int)

  /** One row of `/monthly-revenue`. */
  datatype RevenuePoint = RevenuePoint(month: string, revenue: Paise)

  /** `/monthly-growth` for `owner`: the growth buckets, each month number replaced by its name. */
  function MonthlyGrowth(records: seq<StudentFee>, owner: ObjectId): (r: seq<GrowthPoint>)
    ensures var g := GroupByMonth(OwnedBy(records, owner), One, 1);
      |r| == |g| && forall k :: 0 <= k < |r| ==> r[k] == GrowthPoint(MonthName(g[k].month), g[k].total)
  {
    var g := GroupByMonth(OwnedBy(records, owner), One, 1);
    seq(|g|, k requires 0 <= k < |g| => GrowthPoint(MonthName(g[k].month), g[k].total))
  }

  /** `/monthly-revenue` for `owner`: the revenue buckets, each month number replaced by its name. */
  function MonthlyRevenue(records: seq<StudentFee>, owner: ObjectId): (r: seq<RevenuePoint>)
    ensures var g := GroupByMonth(OwnedBy(records, owner), FeesPaidOf, 1);
      |r| == |g| && forall k :: 0 <= k < |r| ==> r[k] == RevenuePoint(MonthName(g[k].month), g[k].total)
  {
    var g := GroupByMonth(OwnedBy(records, owner), FeesPaidOf, 1);
    seq(|g|, k requires 0 <= k < |g| => RevenuePoint(MonthName(g[k].month), g[k].total))
  }

  function GrowthTotal(r: seq<GrowthPoint>): int
  {
    if r == [] then 0 else r[0].students + GrowthTotal(r[1..])
  }

  function RevenueTotal(r: seq<RevenuePoint>): Paise
  {
    if r == [] then 0 else r[0].revenue + RevenueTotal(r[1..])
  }

  lemma {:induction false} GrowthTotalIsBucketsTotal(r: seq<GrowthPoint>, g: seq<Bucket>)
    requires |r| == |g| && forall k :: 0 <= k < |r| ==> r[k].students == g[k].total
    ensures GrowthTotal(r) == BucketsTotal(g)
  {
    if r != [] {
      GrowthTotalIsBucketsTotal(r[1..], g[1..]);
    }
  }

  lemma {:induction false} RevenueTotalIsBucketsTotal(r: seq<RevenuePoint>, g: seq<Bucket>)
    requires |r| == |g| && forall k :: 0 <= k < |r| ==> r[k].revenue == g[k].total
    ensures RevenueTotal(r) == BucketsTotal(g)
  {
    if r != [] {
      RevenueTotalIsBucketsTotal(r[1..], g[1..]);
    }
  }

  /**
   * The growth series: month names in calendar order, one row per month in
   * which the owner admitted someone, and the rows' counts add up to the
   * owner's number of students.
   */
  lemma GrowthSeries(records: seq<StudentFee>, owner: ObjectId)
    requires AdmissionMonthsValid(OwnedBy(records, owner))
    ensures var r := MonthlyGrowth(records, owner);
      && (forall j, k :: 0 <= j < k < |r| ==> 0 < MonthNumber(r[j].name) < MonthNumber(r[k].name))
      && (forall k :: 0 <= k < |r| ==> r[k].students == CountInMonth(OwnedBy(records, owner), MonthNumber(r[k].name)) > 0)
      && GrowthTotal(r) == Stats(records, owner).totalStudents
  {
    var s := OwnedBy(records, owner);
    var g := GroupByMonth(s, One, 1);
    var r := MonthlyGrowth(records, owner);
    forall k | 0 <= k < |r|
      ensures MonthNumber(r[k].name) == g[k].month
    {
      MonthNameRoundTrip(g[k].month);
    }
    forall k | 0 <= k < |r|
      ensures r[k].students == CountInMonth(s, g[k].month)
    {
      CountIsTotalOfOne(s, g[k].month);
    }
    GrowthTotalIsBucketsTotal(r, g);
    GroupingPreservesTotal(s, One);
    TotalOfOne(s);
  }

  /**
   * The revenue series: month names in calendar order, one row per month in
   * which the owner admitted someone (a month whose fees are all unpaid
   * still has its row, with revenue 0), each row the fees paid by that
   * month's students, and the rows add up to the dashboard's total revenue.
   */
  lemma RevenueSeries(records: seq<StudentFee>, owner: ObjectId)
    requires AdmissionMonthsValid(OwnedBy(records, owner))
    ensures var r := MonthlyRevenue(records, owner);
      && (forall j, k :: 0 <= j < k < |r| ==> 0 < MonthNumber(r[j].month) < MonthNumber(r[k].month))
      && (forall k :: 0 <= k < |r| ==>
            CountInMonth(OwnedBy(records, owner), MonthNumber(r[k].month)) > 0
            && r[k].revenue == TotalInMonth(OwnedBy(records, owner), MonthNumber(r[k].month), FeesPaidOf))
      && RevenueTotal(r) == Stats(records, owner).totalRevenue
  {
    var s := OwnedBy(records, owner);
    var g := GroupByMonth(s, FeesPaidOf, 1);
    var r := MonthlyRevenue(records, owner);
    forall k | 0 <= k < |r|
      ensures MonthNumber(r[k].month) == g[k].month
    {
      MonthNameRoundTrip(g[k].month);
    }
    RevenueTotalIsBucketsTotal(r, g);
    GroupingPreservesTotal(s, FeesPaidOf);
    TotalOfFeesPaid(s);
  }

  /** Every month in which the owner admitted someone has its row in the growth series. */
  lemma GrowthHasEveryMonth(records: seq<StudentFee>, owner: ObjectId, m: int)
    requires 1 <= m <= 12 && CountInMonth(OwnedBy(records, owner), m) > 0
    ensures exists k :: 0 <= k < |MonthlyGrowth(records, owner)| && MonthlyGrowth(records, owner)[k].name == MonthName(m)
  {
    var g := GroupByMonth(OwnedBy(records, owner), One, 1);
    GroupByMonthComplete(OwnedBy(records, owner), One, 1, m);
    var k :| 0 <= k < |g| && g[k].month == m;
    assert MonthlyGrowth(records, owner)[k].name == MonthName(m);
  }

  /** Every month in which the owner admitted someone has its row in the revenue series. */
  lemma RevenueHasEveryMonth(records: seq<StudentFee>, owner: ObjectId, m: int)
    requires 1 <= m <= 12 && CountInMonth(OwnedBy(records, owner), m) > 0
    ensures exists k :: 0 <= k < |MonthlyRevenue(records, owner)| && MonthlyRevenue(records, owner)[k].month == MonthName(m)
  {
    var g := GroupByMonth(OwnedBy(records, owner), FeesPaidOf, 1);
    GroupByMonthComplete(OwnedBy(records, owner), FeesPaidOf, 1, m);
    var k :| 0 <= k < |g| && g[k].month == m;
    assert MonthlyRevenue(records, owner)[k].month == MonthName(m);
  }

  lemma {:induction false} CountIsTotalOfOne(s: seq<StudentFee>, m: int)
    ensures TotalInMonth(s, m, One) == CountInMonth(s, m)
  {
    if s != [] {
      CountIsTotalOfOne(s[1..], m);
    }
  }
}
