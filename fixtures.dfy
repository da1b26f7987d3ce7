/** The mock data every preview draws from (constants.ts): the fixed seven-month sales
    table and the shape of the random fifty-point scatter sample. */
module Fixtures {
  import opened Common
  import opened Values

  function SalesRow(month: string, revenue: int, profit: int, churn: int, status: string, category: string, date: string): Row
  {
    [("month", Str(month)), ("revenue", Num(revenue as real)), ("profit", Num(profit as real)),
     ("churn", Num(churn as real)), ("status", Str(status)), ("category", Str(category)), ("date", Str(date))]
  }

  /** generateSalesData() */
  function SalesData(): (r: seq<Row>)
    ensures |r| == 7
  {
    [SalesRow("Jan", 4000, 2400, 100, "Active", "Electronics", "2024-01-01"),
     SalesRow("Feb", 3000, 1398, 200, "Active", "Furniture", "2024-02-01"),
     SalesRow("Mar", 2000, 9800, 150, "Active", "Electronics", "2024-03-01"),
     SalesRow("Apr", 2780, 3908, 180, "Inactive", "Clothing", "2024-04-01"),
     SalesRow("May", 1890, 4800, 220, "Inactive", "Furniture", "2024-05-01"),
     SalesRow("Jun", 2390, 3800, 190, "Active", "Clothing", "2024-06-01"),
     SalesRow("Jul", 3490, 4300, 170, "Active", "Electronics", "2024-07-01")]
  }

  /** The columns of the sales table, one sequence per field. */
  const SalesMonths: seq<string> := ["Jan", "Feb", "Mar", "Apr", "May", "Jun", "Jul"]
  const SalesRevenues: seq<int> := [4000, 3000, 2000, 2780, 1890, 2390, 3490]
  const SalesProfits: seq<int> := [2400, 1398, 9800, 3908, 4800, 3800, 4300]
  const SalesChurns: seq<int> := [100, 200, 150, 180, 220, 190, 170]
  const SalesStatuses: seq<string> := ["Active", "Active", "Active", "Inactive", "Inactive", "Active", "Active"]
  const SalesCategories: seq<string> := ["Electronics", "Furniture", "Electronics", "Clothing", "Furniture", "Clothing", "Electronics"]
  const SalesDates: seq<string> := ["2024-01-01", "2024-02-01", "2024-03-01", "2024-04-01", "2024-05-01", "2024-06-01", "2024-07-01"]

  lemma SalesRowAt(i: nat)
    requires i < 7
    ensures SalesData()[i] == SalesRow(SalesMonths[i], SalesRevenues[i], SalesProfits[i], SalesChurns[i],
                                       SalesStatuses[i], SalesCategories[i], SalesDates[i])
  {
    if i == 0 {} else if i == 1 {} else if i == 2 {} else if i == 3 {} else if i == 4 {} else if i == 5 {} else {}
  }

  /** Math.floor(Math.random() * bound): a whole number in [0, bound). */
  predicate RandomWhole(v: Value, bound: int)
  {
    v.Num? && v.n == (v.n.Floor as real) && 0.0 <= v.n < bound as real
  }

  /** The i-th point of generateScatterData(): x and y below 100, z below 500, and the
      route type alternating Express, Standard from the first point. */
  predicate ScatterPoint(row: Row, i: int)
  {
    |row| == 4
    && row[0].0 == "x" && RandomWhole(row[0].1, 100)
    && row[1].0 == "y" && RandomWhole(row[1].1, 100)
    && row[2].0 == "z" && RandomWhole(row[2].1, 500)
    && row[3] == ("route_type", Str(if i % 2 == 0 then "Express" else "Standard"))
  }

  /** Any result generateScatterData() can return. */
  predicate ScatterSample(rows: seq<Row>)
  {
    |rows| == 50 && forall i :: 0 <= i < 50 ==> ScatterPoint(rows[i], i)
  }

  const SalesColumns: seq<string> := ["month", "revenue", "profit", "churn", "status", "category", "date"]

  lemma SalesRowNames(month: string, revenue: int, profit: int, churn: int, status: string, category: string, date: string)
    ensures Names(SalesRow(month, revenue, profit, churn, status, category, date)) == SalesColumns
  {
    var row := SalesRow(month, revenue, profit, churn, status, category, date);
    forall i | 0 <= i < 7 ensures Names(row)[i] == SalesColumns[i] {
      NamesAt(row, i);
    }
  }

  /** The column names of the sales table, in Object.keys order. */
  lemma SalesFields()
    ensures Keys(SalesData()[0]) == SalesColumns
  {
    SalesRowNames("Jan", 4000, 2400, 100, "Active", "Electronics", "2024-01-01");
    assert Names(SalesData()[0]) == SalesColumns;
    SalesColumnsPlain();
  }

  lemma SalesColumnsPlain()
    ensures OwnKeyOrder(SalesColumns) == SalesColumns
  {
    forall k | k in SalesColumns ensures |k| > 0 && !IsDigit(k[0]) {
    }
    PlainNames(SalesColumns);
  }

  /** The column names of a scatter sample, in Object.keys order. */
  lemma ScatterFields(scatter: seq<Row>)
    requires ScatterSample(scatter)
    ensures Keys(scatter[0]) == ["x", "y", "z", "route_type"]
  {
    assert ScatterPoint(scatter[0], 0);
    var points := ["x", "y", "z", "route_type"];
    forall i | 0 <= i < 4 ensures Names(scatter[0])[i] == points[i] {
      NamesAt(scatter[0], i);
    }
    assert Names(scatter[0]) == points;
    PlainNames(points);
  }
}
