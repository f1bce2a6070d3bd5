/**
 * The admin dashboard's aggregations over rows read from the store: the
 * per-status pie, the lowest-stock bar chart, and the monthly overview.
 */
module Dashboard {
  import opened Domain
  import Ordering

  /** How many of `statuses` equal `s` (`filter(r => r.status === s).length`). */
  function Count(statuses: seq<Status>, s: Status): (n: nat)
    ensures n <= |statuses|
  {
    if statuses == [] then 0
    else (if statuses[0] == s then 1 else 0) + Count(statuses[1..], s)
  }

  /** Every request is approved, denied or pending, so the three counts add up to the total. */
  lemma {:induction false} CountsAddUp(statuses: seq<Status>)
    ensures Count(statuses, APPROVED) + Count(statuses, DENIED) + Count(statuses, PENDING) == |statuses|
  {
    if statuses != [] {
      CountsAddUp(statuses[1..]);
    }
  }

  /** One slice of the requests pie. */
  datatype Slice = Slice(name: string, value: nat, color: string, darkColor: string)

  function ApprovedSlice(n: nat): Slice { Slice("Approved", n, "#22c55e", "#84cc16") }
  function DeniedSlice(n: nat): Slice { Slice("Denied", n, "#dc2626", "#ef4444") }
  function PendingSlice(n: nat): Slice { Slice("Pending", n, "#eab308", "#facc15") }

  /** The slices whose value is positive, in their order. */
  function NonEmpty(slices: seq<Slice>): (r: seq<Slice>)
    ensures |r| <= |slices|
    ensures forall i :: 0 <= i < |r| ==> r[i].value > 0
  {
    if slices == [] then []
    else (if slices[0].value > 0 then [slices[0]] else []) + NonEmpty(slices[1..])
  }

  /** Filtering three slices keeps each one with a positive value, in order. */
  lemma NonEmptyThree(a: Slice, d: Slice, p: Slice)
    ensures NonEmpty([a, d, p]) == (if a.value > 0 then [a] else [])
                                 + (if d.value > 0 then [d] else [])
                                 + (if p.value > 0 then [p] else [])
  {
    assert [a, d, p][1..] == [d, p];
    assert [d, p][1..] == [p];
    assert [p][1..] == [];
    assert NonEmpty([p]) == (if p.value > 0 then [p] else []);
    assert NonEmpty([d, p]) == (if d.value > 0 then [d] else []) + NonEmpty([p]);
  }

  /** The pie for given counts: the non-empty slices, in the order Approved, Denied, Pending. */
  function Pie(approved: nat, denied: nat, pending: nat): (r: seq<Slice>)
    ensures r == (if approved > 0 then [ApprovedSlice(approved)] else [])
               + (if denied > 0 then [DeniedSlice(denied)] else [])
               + (if pending > 0 then [PendingSlice(pending)] else [])
  {
    NonEmptyThree(ApprovedSlice(approved), DeniedSlice(denied), PendingSlice(pending));
    NonEmpty([ApprovedSlice(approved), DeniedSlice(denied), PendingSlice(pending)])
  }

  /**
   * `getRequestsChartData`: Approved, Denied, Pending, in that order, each
   * carrying its count, and leaving out a status nobody has.
   */
  function RequestsChartData(statuses: seq<Status>): (r: seq<Slice>)
    ensures var a, d, p := Count(statuses, APPROVED), Count(statuses, DENIED), Count(statuses, PENDING);
      r == (if a > 0 then [ApprovedSlice(a)] else [])
         + (if d > 0 then [DeniedSlice(d)] else [])
         + (if p > 0 then [PendingSlice(p)] else [])
    ensures |r| <= 3 && forall i :: 0 <= i < |r| ==> r[i].value > 0
  {
    Pie(Count(statuses, APPROVED), Count(statuses, DENIED), Count(statuses, PENDING))
  }

  function SumValues(slices: seq<Slice>): nat {
    if slices == [] then 0 else slices[0].value + SumValues(slices[1..])
  }

  lemma {:induction false} SumValuesAppend(a: seq<Slice>, b: seq<Slice>)
    ensures SumValues(a + b) == SumValues(a) + SumValues(b)
  {
    if a == [] {
      assert a + b == b;
    } else {
      assert (a + b)[1..] == a[1..] + b;
      SumValuesAppend(a[1..], b);
    }
  }

  /** Dropping empty slices does not change the total. */
  lemma SumNonEmptyThree(x: Slice, y: Slice, z: Slice)
    ensures SumValues((if x.value > 0 then [x] else []) + (if y.value > 0 then [y] else [])
                      + (if z.value > 0 then [z] else [])) == x.value + y.value + z.value
  {
    var sx := if x.value > 0 then [x] else [];
    var sy := if y.value > 0 then [y] else [];
    var sz := if z.value > 0 then [z] else [];
    SumValuesAppend(sx, sy);
    SumValuesAppend(sx + sy, sz);
  }

  /** The pie accounts for every request exactly once. */
  lemma RequestsChartCoversAll(statuses: seq<Status>)
    ensures SumValues(RequestsChartData(statuses)) == |statuses|
  {
    var a, d, p := Count(statuses, APPROVED), Count(statuses, DENIED), Count(statuses, PENDING);
    SumNonEmptyThree(ApprovedSlice(a), DeniedSlice(d), PendingSlice(p));
    CountsAddUp(statuses);
  }

  /** A bar of the stock chart. */
  datatype StockLevel = Low | OK
  datatype Bar = Bar(name: string, quantity: int, threshold: int, status: StockLevel)

  function BarOf(s: Supply): (b: Bar)
    ensures b.name == s.name && b.quantity == s.quantity && b.threshold == s.minimumThreshold
    ensures b.status == Low <==> s.quantity <= s.minimumThreshold
  {
    Bar(s.name, s.quantity, s.minimumThreshold, if s.quantity <= s.minimumThreshold then Low else OK)
  }

  /** Ascending by quantity (`orderBy: { quantity: "asc" }`). */
  function ByQuantity(a: Supply, b: Supply): bool {
    a.quantity <= b.quantity
  }

  const ChartSize: nat := 10

  /** The supplies the chart shows: the ten with the least stock. */
  function ShownSupplies(supplies: seq<Supply>): seq<Supply> {
    Ordering.Take(Ordering.SortBy(supplies, ByQuantity), ChartSize)
  }

  /** `getSupplyChartData`. */
  function SupplyChartData(supplies: seq<Supply>): (r: seq<Bar>)
    ensures |r| == if |supplies| <= ChartSize then |supplies| else ChartSize
    ensures forall i :: 0 <= i < |r| ==> r[i] == BarOf(ShownSupplies(supplies)[i])
  {
    var shown := ShownSupplies(supplies);
    assert |Ordering.SortBy(supplies, ByQuantity)| == |multiset(Ordering.SortBy(supplies, ByQuantity))| == |supplies|;
    seq(|shown|, i requires 0 <= i < |shown| => BarOf(shown[i]))
  }

  /**
   * The chart shows supplies in ascending order of stock, and no supply left
   * out has less stock than one shown.
   */
  lemma SupplyChartShowsLowest(supplies: seq<Supply>)
    ensures forall i, j :: 0 <= i < j < |SupplyChartData(supplies)| ==>
      SupplyChartData(supplies)[i].quantity <= SupplyChartData(supplies)[j].quantity
    ensures forall s :: s in supplies && s !in ShownSupplies(supplies) ==>
      forall b :: b in ShownSupplies(supplies) ==> b.quantity <= s.quantity
    ensures forall b :: b in ShownSupplies(supplies) ==> b in supplies
  {
    var sorted := Ordering.SortBy(supplies, ByQuantity);
    Ordering.SortBySorted(supplies, ByQuantity);
    Ordering.SameElements(supplies, sorted);
    var shown := ShownSupplies(supplies);
    forall b | b in shown ensures b in sorted {
      var i :| 0 <= i < |shown| && shown[i] == b;
      assert sorted[i] == b;
    }
    forall s, b | s in supplies && s !in shown && b in shown ensures b.quantity <= s.quantity {
      Ordering.TakeSortedTop(sorted, ChartSize, ByQuantity, b, s);
    }
  }

  /** A calendar month of the overview, as an inclusive range of timestamps. */
  datatype Month = Month(name: string, start: int, end: int)

  datatype Bucket = Bucket(name: string, total: nat, approved: nat, denied: nat, pending: nat)

  /** The statuses of the requests created within a month. */
  function StatusesIn(requests: seq<Request>, m: Month): (r: seq<Status>)
    ensures |r| <= |requests|
  {
    if requests == [] then []
    else
      (if m.start <= requests[0].createdAt <= m.end then [requests[0].status] else [])
      + StatusesIn(requests[1..], m)
  }

  function BucketOf(requests: seq<Request>, m: Month): (b: Bucket)
    ensures b.name == m.name
    ensures b.approved + b.denied + b.pending == b.total
  {
    var statuses := StatusesIn(requests, m);
    CountsAddUp(statuses);
    Bucket(m.name, |statuses|, Count(statuses, APPROVED), Count(statuses, DENIED), Count(statuses, PENDING))
  }

  /**
   * `getOverviewData`: one bucket per month, in the order of the months given;
   * in each, the three status counts add up to the month's total.
   */
  function OverviewData(requests: seq<Request>, months: seq<Month>): (r: seq<Bucket>)
    ensures |r| == |months|
    ensures forall i :: 0 <= i < |r| ==> r[i].name == months[i].name
    ensures forall i :: 0 <= i < |r| ==> r[i].approved + r[i].denied + r[i].pending == r[i].total
  {
    seq(|months|, i requires 0 <= i < |months| => BucketOf(requests, months[i]))
  }
}
