/** The live preview of the widget editor (the preview effect of
    components/dashboard/DashboardGrid.tsx): which mock rows a source yields, the fields
    offered for dragging, and how each chart type shapes the rows it shows. */
module Preview {
  import opened Common
  import opened Values
  import opened Model
  import opened Aggregation
  import opened Fixtures

  /** The rows behind a source: a saved query (an id starting "sq-") and every chart
      type but SCATTER read the sales table; SCATTER reads a scatter sample. */
  function RawRows(sourceId: string, chartType: ChartType, scatter: seq<Row>): (r: seq<Row>)
    requires ScatterSample(scatter)
    ensures |r| > 0
    ensures r == SalesData() || r == scatter
  {
    if StartsWith(sourceId, "sq-") then SalesData()
    else if chartType == SCATTER then scatter
    else SalesData()
  }

  /** row[col] && typeof row[col] !== 'object' ? row[col] : '' */
  function ProjectValue(v: Option<Value>): (r: Value)
    ensures Truthy(v) && !IsObject(v) ==> r == v.value
    ensures !Truthy(v) || IsObject(v) ==> r == Str("")
  {
    if Truthy(v) && !IsObject(v) then v.value else Str("")
  }

  /** The projection of a row onto the table columns, assigned column by column. */
  function ProjectRow(row: Row, columns: seq<string>): Row
    decreases |columns|
  {
    if columns == [] then []
    else
      var c := columns[|columns| - 1];
      Assign(ProjectRow(row, columns[..|columns| - 1]), c, ProjectValue(Lookup(row, c)))
  }

  /** A projected row has a property exactly for each column, holding the projected
      value of the source row. */
  lemma {:induction false} ProjectRowLookup(row: Row, columns: seq<string>)
    ensures forall c :: (Lookup(ProjectRow(row, columns), c)
      == if c in columns then Some(ProjectValue(Lookup(row, c))) else None)
    decreases |columns|
  {
    if columns != [] {
      var front := columns[..|columns| - 1];
      var c := columns[|columns| - 1];
      ProjectRowLookup(row, front);
      assert columns == front + [c];
      assert ProjectRow(row, columns) == Assign(ProjectRow(row, front), c, ProjectValue(Lookup(row, c)));
    }
  }

  /** Each column names exactly one property of the projected row. */
  lemma {:induction false} ProjectRowNames(row: Row, columns: seq<string>)
    ensures forall c :: c in Names(ProjectRow(row, columns)) <==> c in columns
    ensures Distinct(Names(ProjectRow(row, columns)))
    decreases |columns|
  {
    if columns != [] {
      var front := columns[..|columns| - 1];
      var c := columns[|columns| - 1];
      ProjectRowNames(row, front);
      assert columns == front + [c];
      var r := ProjectRow(row, front);
      assert ProjectRow(row, columns) == Assign(r, c, ProjectValue(Lookup(row, c)));
      AssignKeepsDistinct(r, c, ProjectValue(Lookup(row, c)));
    }
  }

  /** With distinct columns, the properties of a projected row come in column order. */
  lemma {:induction false} ProjectRowOrder(row: Row, columns: seq<string>)
    requires Distinct(columns)
    ensures Names(ProjectRow(row, columns)) == columns
    decreases |columns|
  {
    if columns != [] {
      var front := columns[..|columns| - 1];
      var c := columns[|columns| - 1];
      assert Distinct(front);
      ProjectRowOrder(row, front);
      assert c !in front;
      var r := ProjectRow(row, front);
      assert ProjectRow(row, columns) == Assign(r, c, ProjectValue(Lookup(row, c)));
      assert Names(ProjectRow(row, columns)) == front + [c];
      assert columns == front + [c];
    }
  }

  /** A TABLE preview: the first five raw rows while no column is chosen, else every raw
      row projected onto the columns. */
  function TablePreview(raw: seq<Row>, columns: seq<string>): seq<Row>
  {
    if columns == [] then raw[..if |raw| < 5 then |raw| else 5]
    else seq(|raw|, i requires 0 <= i < |raw| => ProjectRow(raw[i], columns))
  }

  /** Number(r[valueField]) || 0 for every raw row. */
  function ValuesOf(raw: seq<Row>, valueField: string): (r: seq<real>)
    ensures |r| == |raw|
    ensures forall i :: 0 <= i < |raw| ==> r[i] == MeasureOf(raw[i], valueField)
  {
    seq(|raw|, i requires 0 <= i < |raw| => MeasureOf(raw[i], valueField))
  }

  /** An INDICATOR preview: one row holding the rounded reduction of the whole row set. */
  function IndicatorRow(raw: seq<Row>, valueField: string, agg: AggregationType): Row
    requires |raw| > 0
  {
    [(valueField, Num(Round2(Reduce(agg, ValuesOf(raw, valueField)))))]
  }

  /** What the preview effect stores: the preview rows and the available fields. */
  datatype PreviewState = PreviewState(rows: seq<Row>, fields: seq<string>)

  /** The preview effect, for the editor's source, chart type, fields, aggregation and
      table columns ("" is an unset field). */
  function PreviewFor(sourceId: string, chartType: ChartType, xField: string, valueField: string,
                      agg: AggregationType, columns: seq<string>, scatter: seq<Row>): (r: PreviewState)
    requires ScatterSample(scatter)
    ensures sourceId == "" ==> r.rows == [] && r.fields == []
    ensures sourceId != "" ==> r.fields == Keys(RawRows(sourceId, chartType, scatter)[0])
    ensures chartType == HTML ==> r.rows == []
    ensures chartType == INDICATOR && valueField == "" ==> r.rows == []
    ensures chartType !in {TABLE, HTML, INDICATOR} && (xField == "" || valueField == "") ==> r.rows == []
  {
    if sourceId == "" then PreviewState([], [])
    else
      var raw := RawRows(sourceId, chartType, scatter);
      var rows :=
        match chartType
        case TABLE => TablePreview(raw, columns)
        case HTML => []
        case INDICATOR => if valueField == "" then [] else [IndicatorRow(raw, valueField, agg)]
        case _ => if xField == "" || valueField == "" then [] else Aggregate(raw, xField, valueField, agg);
      PreviewState(rows, Keys(raw[0]))
  }

  /** A TABLE without columns previews the first min(5, n) raw rows unchanged. */
  lemma TableWithoutColumns(sourceId: string, xField: string, valueField: string, agg: AggregationType, scatter: seq<Row>)
    requires ScatterSample(scatter) && sourceId != ""
    ensures var raw := RawRows(sourceId, TABLE, scatter);
      var rows := PreviewFor(sourceId, TABLE, xField, valueField, agg, [], scatter).rows;
      |rows| == (if |raw| < 5 then |raw| else 5)
      && forall i :: 0 <= i < |rows| ==> rows[i] == raw[i]
  {
    var raw := RawRows(sourceId, TABLE, scatter);
    assert PreviewFor(sourceId, TABLE, xField, valueField, agg, [], scatter).rows == TablePreview(raw, []);
    FirstFive(raw);
  }

  lemma FirstFive(raw: seq<Row>)
    ensures var rows := TablePreview(raw, []);
      |rows| == (if |raw| < 5 then |raw| else 5)
      && forall i :: 0 <= i < |rows| ==> rows[i] == raw[i]
  {
  }

  /** A TABLE with columns previews every raw row, projected onto exactly the columns:
      truthy non-object values are copied, falsy (0 and "" included) and object values
      become "". */
  lemma TableWithColumns(sourceId: string, xField: string, valueField: string, agg: AggregationType,
                         columns: seq<string>, scatter: seq<Row>)
    requires ScatterSample(scatter) && sourceId != "" && columns != []
    ensures var raw := RawRows(sourceId, TABLE, scatter);
      var rows := PreviewFor(sourceId, TABLE, xField, valueField, agg, columns, scatter).rows;
      |rows| == |raw|
      && forall i, c :: 0 <= i < |rows| ==>
        (c in Names(rows[i]) <==> c in columns)
        && Lookup(rows[i], c) == if c in columns then Some(ProjectValue(Lookup(raw[i], c))) else None
  {
    var raw := RawRows(sourceId, TABLE, scatter);
    assert PreviewFor(sourceId, TABLE, xField, valueField, agg, columns, scatter).rows == TablePreview(raw, columns);
    ProjectAll(raw, columns);
  }

  lemma ProjectAll(raw: seq<Row>, columns: seq<string>)
    requires columns != []
    ensures var rows := TablePreview(raw, columns);
      |rows| == |raw|
      && forall i, c :: 0 <= i < |rows| ==>
        (c in Names(rows[i]) <==> c in columns)
        && Lookup(rows[i], c) == if c in columns then Some(ProjectValue(Lookup(raw[i], c))) else None
  {
    var rows := TablePreview(raw, columns);
    forall i | 0 <= i < |rows|
      ensures forall c :: ((c in Names(rows[i]) <==> c in columns)
        && Lookup(rows[i], c) == if c in columns then Some(ProjectValue(Lookup(raw[i], c))) else None)
    {
      assert rows[i] == ProjectRow(raw[i], columns);
      ProjectRowLookup(raw[i], columns);
      ProjectRowNames(raw[i], columns);
    }
  }

  /** An INDICATOR with a value field previews exactly one row whose only property is the
      value field, holding the rounded reduction of all raw rows. */
  lemma IndicatorPreview(sourceId: string, xField: string, valueField: string, agg: AggregationType,
                         columns: seq<string>, scatter: seq<Row>)
    requires ScatterSample(scatter) && sourceId != "" && valueField != ""
    ensures var raw := RawRows(sourceId, INDICATOR, scatter);
      var rows := PreviewFor(sourceId, INDICATOR, xField, valueField, agg, columns, scatter).rows;
      |rows| == 1 && Names(rows[0]) == [valueField]
      && Lookup(rows[0], valueField) == Some(Num(Round2(Reduce(agg, ValuesOf(raw, valueField)))))
  {
    var raw := RawRows(sourceId, INDICATOR, scatter);
    assert PreviewFor(sourceId, INDICATOR, xField, valueField, agg, columns, scatter).rows
      == [IndicatorRow(raw, valueField, agg)];
    IndicatorRowShape(raw, valueField, agg);
  }

  lemma IndicatorRowShape(raw: seq<Row>, valueField: string, agg: AggregationType)
    requires |raw| > 0
    ensures Names(IndicatorRow(raw, valueField, agg)) == [valueField]
    ensures Lookup(IndicatorRow(raw, valueField, agg), valueField)
      == Some(Num(Round2(Reduce(agg, ValuesOf(raw, valueField)))))
  {
  }

  /** A chart with both fields set previews the aggregation of the raw rows. */
  lemma ChartPreview(sourceId: string, chartType: ChartType, xField: string, valueField: string,
                     agg: AggregationType, columns: seq<string>, scatter: seq<Row>)
    requires ScatterSample(scatter) && sourceId != "" && chartType !in {TABLE, HTML, INDICATOR}
    requires xField != "" && valueField != ""
    ensures PreviewFor(sourceId, chartType, xField, valueField, agg, columns, scatter).rows
      == Aggregate(RawRows(sourceId, chartType, scatter), xField, valueField, agg)
  {
  }

  // ---------------------------------------------------------------------------
  // Scenarios on the sales table

  lemma SalesRowReads(month: string, revenue: int, profit: int, churn: int, status: string, category: string, date: string)
    ensures var row := SalesRow(month, revenue, profit, churn, status, category, date);
      && KeyOf(row, "month") == month
      && MeasureOf(row, "revenue") == revenue as real
      && MeasureOf(row, "churn") == churn as real
      && Lookup(row, "month") == Some(Str(month))
      && Lookup(row, "churn") == Some(Num(churn as real))
      && Lookup(row, "date") == Some(Str(date))
  {
    var row := SalesRow(month, revenue, profit, churn, status, category, date);
    LookupAt(row, "month", 0);
    LookupAt(row, "revenue", 1);
    LookupAt(row, "churn", 3);
    LookupAt(row, "date", 6);
  }

  lemma SalesReadsAt(i: nat)
    requires i < 7
    ensures KeyOf(SalesData()[i], "month") == SalesMonths[i]
    ensures Lookup(SalesData()[i], "month") == Some(Str(SalesMonths[i]))
    ensures MeasureOf(SalesData()[i], "churn") == SalesChurns[i] as real
    ensures Lookup(SalesData()[i], "churn") == Some(Num(SalesChurns[i] as real))
    ensures Lookup(SalesData()[i], "date") == Some(Str(SalesDates[i]))
  {
    SalesRowAt(i);
    SalesRowReads(SalesMonths[i], SalesRevenues[i], SalesProfits[i], SalesChurns[i],
                  SalesStatuses[i], SalesCategories[i], SalesDates[i]);
  }

  lemma SalesMonthKeys()
    ensures KeySeq(SalesData(), "month") == SalesMonths
  {
    forall i | 0 <= i < 7 ensures KeySeq(SalesData(), "month")[i] == SalesMonths[i] {
      SalesReadsAt(i);
    }
  }

  lemma SalesMonthsPlain()
    ensures Distinct(SalesMonths)
    ensures forall k :: k in SalesMonths ==> !IsArrayIndex(k)
  {
    forall k | k in SalesMonths ensures !IsArrayIndex(k) {
      assert !IsDigit(k[0]);
    }
  }

  /** Charting churn by month on the sales table gives seven rows, one per month in
      table order, each with that month's churn: every group has a single member. */
  lemma ChurnByMonth()
    ensures var rows := Aggregate(SalesData(), "month", "churn", SUM);
      |rows| == 7
      && forall i :: 0 <= i < 7 ==>
        Lookup(rows[i], "month") == Lookup(SalesData()[i], "month")
        && Lookup(rows[i], "churn") == Lookup(SalesData()[i], "churn")
  {
    var data := SalesData();
    SalesMonthKeys();
    SalesMonthsPlain();
    forall i | 0 <= i < 7 ensures !IsArrayIndex(KeyOf(data[i], "month")) {
      assert KeySeq(data, "month")[i] in SalesMonths;
    }
    AggregateOfDistinctKeys(data, "month", "churn", SUM);
    var rows := Aggregate(data, "month", "churn", SUM);
    forall i | 0 <= i < 7
      ensures Lookup(rows[i], "month") == Lookup(data[i], "month")
      ensures Lookup(rows[i], "churn") == Lookup(data[i], "churn")
    {
      SalesReadsAt(i);
      var churn := SalesChurns[i] as real;
      ReduceSingleton(SUM, churn);
      Round2Whole(SalesChurns[i]);
      GroupRowShape("month", "churn", SalesMonths[i], churn);
    }
  }

  /** The INDICATOR example: SUM over revenues 4000, 3000 and 2000 previews {revenue: 9000}. */
  lemma IndicatorSumExample()
    ensures IndicatorRow([[("revenue", Num(4000.0))], [("revenue", Num(3000.0))], [("revenue", Num(2000.0))]], "revenue", SUM)
      == [("revenue", Num(9000.0))]
  {
    var raw := [[("revenue", Num(4000.0))], [("revenue", Num(3000.0))], [("revenue", Num(2000.0))]];
    var vals := ValuesOf(raw, "revenue");
    assert vals == [4000.0, 3000.0, 2000.0];
    assert vals[..2][..1][..0] == [];
    assert Sum(vals[..1]) == 4000.0;
    assert Sum(vals[..2]) == 7000.0;
    assert Sum(vals) == 9000.0;
    Round2Whole(9000);
  }

  /** A TABLE without columns on the sales table previews January to May unchanged. */
  lemma SalesTableFirstFive(sourceId: string, scatter: seq<Row>)
    requires ScatterSample(scatter) && sourceId != ""
    ensures PreviewFor(sourceId, TABLE, "", "", SUM, [], scatter).rows == SalesData()[..5]
  {
  }
}
