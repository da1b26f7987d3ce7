/** The dashboard filter engine (applyFiltersToWidget in
    components/dashboard/DashboardGrid.tsx): the active filter values of a dashboard,
    keyed by filter id, narrow the rows of each widget through the widget's mapping from
    filter id to row field. */
module Filters {
  import opened Common
  import opened Values
  import opened Model
  import opened Fixtures

  /** The active filter values, keyed by filter id, in creation order. */
  type ActiveFilters = seq<(string, FilterValue)>

  /** JavaScript truthiness of a filter value: "" and null are falsy, a range object is not. */
  predicate FilterTruthy(v: FilterValue)
  {
    match v
    case Choice(s) => s != ""
    case Range(_, _) => true
    case Cleared => false
  }

  /** A filter that takes part: its definition, the row field it is mapped to and its value. */
  datatype Applied = Applied(def: DashboardFilter, field: string, value: FilterValue)

  /** widget.config.filterMapping || {} */
  function MappingOf(w: Widget): map<string, string>
  {
    if w.config.filterMapping.Some? then w.config.filterMapping.value else map[]
  }

  /** One active entry, or None when it is skipped: no mapped field, a falsy value, or no
      filter definition with that id. */
  function Effective(id: string, value: FilterValue, mapping: map<string, string>, filters: seq<DashboardFilter>): (r: Option<Applied>)
    ensures r.None? <==>
      (id !in mapping || mapping[id] == "" || !FilterTruthy(value) || FindFilter(filters, id).None?)
    ensures r.Some? ==> (r.value.def in filters && r.value.def.id == id
      && r.value.field == mapping[id] && r.value.value == value)
  {
    var field := if id in mapping then mapping[id] else "";
    if field == "" || !FilterTruthy(value) then None
    else
      match FindFilter(filters, id)
      case None => None
      case Some(d) => Some(Applied(d, field, value))
  }

  /** new Date(a) >= new Date(b) on two strings; an Invalid Date compares false. */
  predicate DateAtLeast(a: string, b: string)
  {
    IsoDate(a).Some? && IsoDate(b).Some? && IsoDate(a).value >= IsoDate(b).value
  }

  predicate BoundSet(bound: Option<string>)
  {
    bound.Some? && bound.value != ""
  }

  /** Whether one applied filter keeps a row. */
  predicate Keeps(f: Applied, row: Row)
  {
    var rowValue := Lookup(row, f.field);
    match f.def.filterType
    case SELECT =>
      (f.value.Choice? && (rowValue == Some(Str(f.value.s)) || f.value.s == "All"))
    case DATE_RANGE =>
      if f.value.Range? then
        !Truthy(rowValue)
        || ((BoundSet(f.value.start) ==> DateAtLeast(Text(rowValue), f.value.start.value))
            && (BoundSet(f.value.end) ==> DateAtLeast(f.value.end.value, Text(rowValue))))
      else true
    case TEXT => true
  }

  predicate KeepsAll(fs: seq<Applied>, row: Row)
  {
    forall i :: 0 <= i < |fs| ==> Keeps(fs[i], row)
  }

  /** The rows every filter of fs keeps, in their original order. */
  function Select(rows: seq<Row>, fs: seq<Applied>): seq<Row>
    decreases |rows|
  {
    if rows == [] then []
    else (if KeepsAll(fs, rows[0]) then [rows[0]] else []) + Select(rows[1..], fs)
  }

  /** Object.entries(activeFilters): the entries in Object.keys order. */
  function Entries(active: ActiveFilters): (r: seq<(string, FilterValue)>)
  {
    var keys := OwnKeyOrder(Names(active));
    seq(|keys|, i requires 0 <= i < |keys| =>
      (keys[i], match Lookup(active, keys[i]) case Some(v) => v case None => Cleared))
  }

  /** The filters that take part, in entry order. */
  function EffectiveFilters(entries: seq<(string, FilterValue)>, mapping: map<string, string>, filters: seq<DashboardFilter>): seq<Applied>
    decreases |entries|
  {
    if entries == [] then []
    else
      var front := EffectiveFilters(entries[..|entries| - 1], mapping, filters);
      var last := entries[|entries| - 1];
      match Effective(last.0, last.1, mapping, filters)
      case None => front
      case Some(f) => front + [f]
  }

  /** The rows the widget shows under the active filters. */
  function FilteredData(w: Widget, active: ActiveFilters, filters: seq<DashboardFilter>): seq<Row>
  {
    Select(w.data, EffectiveFilters(Entries(active), MappingOf(w), filters))
  }

  /** Runs the filters one after the other over a copy of the widget's rows and returns the
      widget with only its rows replaced. */
  method ApplyFiltersToWidget(w: Widget, active: ActiveFilters, filters: seq<DashboardFilter>) returns (r: Widget)
    ensures r == w.(data := FilteredData(w, active, filters))
  {
    var filtered := w.data;
    var mapping := MappingOf(w);
    var entries := Entries(active);
    SelectNone(w.data);
    assert entries[..0] == [];
    var j := 0;
    while j < |entries|
      invariant 0 <= j <= |entries|
      invariant filtered == Select(w.data, EffectiveFilters(entries[..j], mapping, filters))
    {
      var (id, value) := entries[j];
      var applied := Effective(id, value, mapping, filters);
      FilterStep(w.data, entries, j, mapping, filters, applied);
      if applied.Some? {
        filtered := Select(filtered, [applied.value]);
      }
      j := j + 1;
    }
    assert entries[..|entries|] == entries;
    r := w.(data := filtered);
  }

  /** One more entry either adds no filter or filters the selected rows once more. */
  lemma FilterStep(rows: seq<Row>, entries: seq<(string, FilterValue)>, j: nat,
                   mapping: map<string, string>, filters: seq<DashboardFilter>, applied: Option<Applied>)
    requires j < |entries| && applied == Effective(entries[j].0, entries[j].1, mapping, filters)
    ensures var before := Select(rows, EffectiveFilters(entries[..j], mapping, filters));
      Select(rows, EffectiveFilters(entries[..j + 1], mapping, filters))
        == if applied.Some? then Select(before, [applied.value]) else before
  {
    assert entries[..j + 1][..j] == entries[..j];
    if applied.Some? {
      SelectTwice(rows, EffectiveFilters(entries[..j], mapping, filters), applied.value);
    }
  }

  // ---------------------------------------------------------------------------
  // The filters combine by conjunction

  lemma KeepsAllAppend(fs: seq<Applied>, f: Applied, row: Row)
    ensures KeepsAll(fs + [f], row) <==> KeepsAll(fs, row) && Keeps(f, row)
  {
    if KeepsAll(fs, row) && Keeps(f, row) {
      forall i | 0 <= i < |fs| + 1 ensures Keeps((fs + [f])[i], row) {
        if i < |fs| {
          assert (fs + [f])[i] == fs[i];
        }
      }
    }
    if KeepsAll(fs + [f], row) {
      forall i | 0 <= i < |fs| ensures Keeps(fs[i], row) {
        assert (fs + [f])[i] == fs[i];
      }
      assert (fs + [f])[|fs|] == f;
    }
  }

  lemma KeepsOne(f: Applied, row: Row)
    ensures KeepsAll([f], row) <==> Keeps(f, row)
  {
    assert [f][0] == f;
  }

  /** Filtering the selected rows again by f selects by fs and f together. */
  lemma {:induction false} SelectTwice(rows: seq<Row>, fs: seq<Applied>, f: Applied)
    ensures Select(Select(rows, fs), [f]) == Select(rows, fs + [f])
    decreases |rows|
  {
    if rows != [] {
      var r0, tail := rows[0], rows[1..];
      SelectTwice(tail, fs, f);
      KeepsAllAppend(fs, f, r0);
      KeepsOne(f, r0);
      var once := Select(rows, fs);
      if KeepsAll(fs, r0) {
        assert once == [r0] + Select(tail, fs);
        assert once[0] == r0 && once[1..] == Select(tail, fs);
        assert Select(once, [f]) == (if KeepsAll([f], r0) then [r0] else []) + Select(Select(tail, fs), [f]);
      } else {
        assert once == Select(tail, fs);
      }
    }
  }

  /** The result is a subsequence of the widget's rows, in their original order, and a
      row is in it exactly when it is a row of the widget that every filter keeps, as
      often as the widget holds it. */
  lemma SelectMeaning(rows: seq<Row>, fs: seq<Applied>)
    ensures IsSubsequence(Select(rows, fs), rows)
    ensures forall row :: row in Select(rows, fs) <==> row in rows && KeepsAll(fs, row)
    ensures forall row :: multiset(Select(rows, fs))[row] == if KeepsAll(fs, row) then multiset(rows)[row] else 0
  {
    SelectOrder(rows, fs);
    SelectIsKeep(rows, fs);
    KeepCount(rows, (r: Row) => KeepsAll(fs, r));
  }

  /** Select is the filter of the rows by KeepsAll. */
  lemma {:induction false} SelectIsKeep(rows: seq<Row>, fs: seq<Applied>)
    ensures Select(rows, fs) == Keep(rows, (r: Row) => KeepsAll(fs, r))
    decreases |rows|
  {
    if rows != [] {
      SelectIsKeep(rows[1..], fs);
    }
  }

  lemma {:induction false} SelectOrder(rows: seq<Row>, fs: seq<Applied>)
    ensures IsSubsequence(Select(rows, fs), rows)
    ensures forall row :: row in Select(rows, fs) <==> row in rows && KeepsAll(fs, row)
    decreases |rows|
  {
    if rows != [] {
      SelectOrder(rows[1..], fs);
      assert rows == [rows[0]] + rows[1..];
      if KeepsAll(fs, rows[0]) {
        assert Select(rows, fs)[1..] == Select(rows[1..], fs);
      }
      else {
        assert Select(rows, fs) == Select(rows[1..], fs);
        SubsequenceSkip(Select(rows[1..], fs), rows);
      }
    }
  }

  /** Without any filter taking part, every row stays. */
  lemma {:induction false} SelectNone(rows: seq<Row>)
    ensures Select(rows, []) == rows
    decreases |rows|
  {
    if rows != [] {
      SelectNone(rows[1..]);
    }
  }

  /** Entries that are skipped (no mapped field, a falsy value, no definition) remove
      nothing: the filters taking part are those of the other entries. */
  lemma {:induction false} SkippedEntries(entries: seq<(string, FilterValue)>, mapping: map<string, string>, filters: seq<DashboardFilter>)
    requires forall i :: 0 <= i < |entries| ==> Effective(entries[i].0, entries[i].1, mapping, filters).None?
    ensures EffectiveFilters(entries, mapping, filters) == []
    decreases |entries|
  {
    if entries != [] {
      SkippedEntries(entries[..|entries| - 1], mapping, filters);
    }
  }

  /** A widget whose active entries are all skipped keeps every row, and the rest of the
      widget is never touched. */
  lemma UnmatchedFiltersKeepAll(w: Widget, active: ActiveFilters, filters: seq<DashboardFilter>)
    requires forall i :: 0 <= i < |Entries(active)| ==>
      Effective(Entries(active)[i].0, Entries(active)[i].1, MappingOf(w), filters).None?
    ensures FilteredData(w, active, filters) == w.data
  {
    SkippedEntries(Entries(active), MappingOf(w), filters);
    SelectNone(w.data);
  }

  // ---------------------------------------------------------------------------
  // What each filter type keeps

  /** SELECT keeps a row exactly when its field equals the chosen value, and every row
      when "All" is chosen. */
  lemma SelectFilterKeeps(def: DashboardFilter, field: string, choice: string, row: Row)
    requires def.filterType == SELECT
    ensures Keeps(Applied(def, field, Choice(choice)), row) <==> Lookup(row, field) == Some(Str(choice)) || choice == "All"
  {
  }

  /** DATE_RANGE with a range object keeps rows without a date, and otherwise a row whose
      date lies within each bound that is set, both bounds included. */
  lemma DateRangeKeeps(def: DashboardFilter, field: string, start: Option<string>, end: Option<string>, row: Row)
    requires def.filterType == DATE_RANGE
    ensures !Truthy(Lookup(row, field)) ==> Keeps(Applied(def, field, Range(start, end)), row)
    ensures Truthy(Lookup(row, field)) ==>
      (Keeps(Applied(def, field, Range(start, end)), row) <==>
        (BoundSet(start) ==> DateAtLeast(Text(Lookup(row, field)), start.value))
        && (BoundSet(end) ==> DateAtLeast(end.value, Text(Lookup(row, field)))))
  {
  }

  /** TEXT filters, and DATE_RANGE filters holding a plain string, keep every row. */
  lemma PassThroughFilters(def: DashboardFilter, field: string, value: FilterValue, row: Row)
    requires def.filterType == TEXT || (def.filterType == DATE_RANGE && !value.Range?)
    ensures Keeps(Applied(def, field, value), row)
  {
  }

  /** With a SELECT filter set to "All" the rows pass unchanged. */
  lemma {:induction false} AllKeepsEveryRow(rows: seq<Row>, def: DashboardFilter, field: string)
    requires def.filterType == SELECT
    ensures Select(rows, [Applied(def, field, Choice("All"))]) == rows
    decreases |rows|
  {
    if rows != [] {
      AllKeepsEveryRow(rows[1..], def, field);
    }
  }

  // ---------------------------------------------------------------------------
  // The sales table between February and April

  lemma DigitsOf2024()
    ensures AllDigits("2024") && DigitsValue("2024") == 2024
  {
    assert "2024"[..3] == "202" && "202"[..2] == "20" && "20"[..1] == "2" && "2"[..0] == "";
  }

  /** new Date("2024-0m-01") for the months 1 to 9. */
  lemma MonthStart2024(m: nat)
    requires 1 <= m <= 9
    ensures IsoDate("2024-0" + [DigitChar(m)] + "-01") == Some(20240001 + m * 100)
  {
    var s := "2024-0" + [DigitChar(m)] + "-01";
    assert |s| == 10 && s[4] == '-' && s[7] == '-';
    assert s[..4] == "2024";
    assert s[5..7] == [DigitChar(0), DigitChar(m)];
    assert s[8..] == [DigitChar(0), DigitChar(1)];
    DigitsOf2024();
    TwoDigits(0, m);
    TwoDigits(0, 1);
  }

  lemma TwoDigits(a: nat, b: nat)
    requires a < 10 && b < 10
    ensures AllDigits([DigitChar(a), DigitChar(b)]) && DigitsValue([DigitChar(a), DigitChar(b)]) == 10 * a + b
  {
    var s := [DigitChar(a), DigitChar(b)];
    assert s[..1] == [DigitChar(a)] && s[..1][..0] == [];
    assert DigitsValue(s[..1]) == DigitValue(DigitChar(a));
    assert DigitsValue(s) == DigitsValue(s[..1]) * 10 + DigitValue(DigitChar(b));
  }

  lemma SalesDateValue(i: nat)
    requires i < 7
    ensures IsoDate(SalesDates[i]) == Some(20240001 + (i + 1) * 100)
  {
    assert SalesDates[i] == "2024-0" + [DigitChar(i + 1)] + "-01";
    MonthStart2024(i + 1);
  }

  lemma SalesDateBetween(i: nat)
    requires i < 7
    ensures (DateAtLeast(SalesDates[i], "2024-02-01") && DateAtLeast("2024-04-01", SalesDates[i])) <==> 1 <= i <= 3
  {
    SalesDateValue(i);
    MonthStart2024(2);
    MonthStart2024(4);
    assert "2024-0" + [DigitChar(2)] + "-01" == "2024-02-01";
    assert "2024-0" + [DigitChar(4)] + "-01" == "2024-04-01";
  }

  lemma SalesRowInRange(def: DashboardFilter, i: nat)
    requires def.filterType == DATE_RANGE && i < 7
    ensures KeepsAll([Applied(def, "date", Range(Some("2024-02-01"), Some("2024-04-01")))], SalesData()[i]) <==> 1 <= i <= 3
  {
    SalesDateAt(i);
    assert |SalesDates[i]| == 10;
    RangeKeepsDate(def, SalesData()[i], SalesDates[i], "2024-02-01", "2024-04-01");
    SalesDateBetween(i);
  }

  /** A closed date range on the date field keeps a row dated `date` exactly when the
      date falls between the bounds. */
  lemma RangeKeepsDate(def: DashboardFilter, row: Row, date: string, start: string, end: string)
    requires def.filterType == DATE_RANGE && date != "" && start != "" && end != ""
    requires Lookup(row, "date") == Some(Str(date))
    ensures KeepsAll([Applied(def, "date", Range(Some(start), Some(end)))], row)
      <==> DateAtLeast(date, start) && DateAtLeast(end, date)
  {
    KeepsOne(Applied(def, "date", Range(Some(start), Some(end))), row);
  }

  /** A date range from 2024-02-01 to 2024-04-01 on the date field keeps exactly the
      February, March and April rows of the sales table. */
  lemma SalesFebruaryToApril(def: DashboardFilter)
    requires def.filterType == DATE_RANGE
    ensures Select(SalesData(), [Applied(def, "date", Range(Some("2024-02-01"), Some("2024-04-01")))])
      == SalesData()[1..4]
  {
    var f := Applied(def, "date", Range(Some("2024-02-01"), Some("2024-04-01")));
    forall i | 0 <= i < |SalesData()| ensures KeepsAll([f], SalesData()[i]) <==> 1 <= i < 4 {
      SalesRowInRange(def, i);
    }
    SelectByIndex(SalesData(), [f], 1, 4);
  }

  lemma SalesDateAt(i: nat)
    requires i < 7
    ensures Lookup(SalesData()[i], "date") == Some(Str(SalesDates[i]))
  {
    SalesRowAt(i);
    LookupAt(SalesData()[i], "date", 6);
  }

  /** When exactly the rows from index lo up to hi are kept, the selection is that slice. */
  lemma {:induction false} SelectByIndex(rows: seq<Row>, fs: seq<Applied>, lo: nat, hi: nat)
    requires lo <= hi <= |rows|
    requires forall i :: 0 <= i < |rows| ==> (KeepsAll(fs, rows[i]) <==> lo <= i < hi)
    ensures Select(rows, fs) == rows[lo..hi]
    decreases |rows|
  {
    if rows != [] {
      var tail := rows[1..];
      forall i | 0 <= i < |tail| ensures KeepsAll(fs, tail[i]) <==> (if lo == 0 then 0 else lo - 1) <= i < (if hi == 0 then 0 else hi - 1) {
        assert tail[i] == rows[i + 1];
      }
      if hi == 0 {
        SelectByIndex(tail, fs, 0, 0);
      } else if lo == 0 {
        SelectByIndex(tail, fs, 0, hi - 1);
        SliceFromStart(rows, hi);
      } else {
        SelectByIndex(tail, fs, lo - 1, hi - 1);
        SliceOfTail(rows, lo, hi);
      }
    }
  }

  // ---------------------------------------------------------------------------
  // The active filter values

  /** The defaults a dashboard starts with: each filter with a truthy default value, under
      its id. */
  function DefaultActiveFilters(filters: seq<DashboardFilter>): ActiveFilters
    decreases |filters|
  {
    if filters == [] then []
    else
      var before := DefaultActiveFilters(filters[..|filters| - 1]);
      var f := filters[|filters| - 1];
      if f.defaultValue.Some? && FilterTruthy(f.defaultValue.value) then Assign(before, f.id, f.defaultValue.value)
      else before
  }

  /** An id is active at the start only if some filter with that id has a truthy
      default. */
  lemma {:induction false} DefaultsFromFilters(filters: seq<DashboardFilter>, id: string)
    ensures Lookup(DefaultActiveFilters(filters), id).Some? ==>
      exists i :: 0 <= i < |filters| && filters[i].id == id
        && filters[i].defaultValue.Some? && FilterTruthy(filters[i].defaultValue.value)
    decreases |filters|
  {
    if filters != [] {
      var front := filters[..|filters| - 1];
      DefaultsFromFilters(front, id);
      if Lookup(DefaultActiveFilters(front), id).Some? {
        var i :| 0 <= i < |front| && front[i].id == id
          && front[i].defaultValue.Some? && FilterTruthy(front[i].defaultValue.value);
        assert filters[i] == front[i];
      }
    }
  }

  /** For filters with distinct ids, each filter with a truthy default starts out active
      with that default. */
  lemma {:induction false} DefaultsApplied(filters: seq<DashboardFilter>, i: nat)
    requires forall a, b :: 0 <= a < b < |filters| ==> filters[a].id != filters[b].id
    requires i < |filters| && filters[i].defaultValue.Some? && FilterTruthy(filters[i].defaultValue.value)
    ensures Lookup(DefaultActiveFilters(filters), filters[i].id) == filters[i].defaultValue
    decreases |filters|
  {
    var front, last := filters[..|filters| - 1], filters[|filters| - 1];
    DefaultsSnoc(filters, filters[i].id);
    if i < |front| {
      assert front[i] == filters[i];
      assert filters[i].id != last.id;
      DistinctIdsPrefix(filters);
      DefaultsApplied(front, i);
    }
  }

  lemma DistinctIdsPrefix(filters: seq<DashboardFilter>)
    requires filters != []
    requires forall a, b :: 0 <= a < b < |filters| ==> filters[a].id != filters[b].id
    ensures var front := filters[..|filters| - 1];
      forall a, b :: 0 <= a < b < |front| ==> front[a].id != front[b].id
  {
    var front := filters[..|filters| - 1];
    forall a, b | 0 <= a < b < |front| ensures front[a].id != front[b].id {
      assert front[a] == filters[a] && front[b] == filters[b];
    }
  }

  /** The defaults after one more filter. */
  lemma DefaultsSnoc(filters: seq<DashboardFilter>, id: string)
    requires filters != []
    ensures var last := filters[|filters| - 1];
      Lookup(DefaultActiveFilters(filters), id)
        == if id == last.id && last.defaultValue.Some? && FilterTruthy(last.defaultValue.value) then last.defaultValue
           else Lookup(DefaultActiveFilters(filters[..|filters| - 1]), id)
  {
  }

  /** handleFilterChange: the filter gets the new value and no other filter changes. */
  function ChangeFilter(active: ActiveFilters, id: string, value: FilterValue): (r: ActiveFilters)
    ensures Lookup(r, id) == Some(value)
    ensures forall other :: other != id ==> Lookup(r, other) == Lookup(active, other)
  {
    Assign(active, id, value)
  }

  /** Clearing a range stores null, which the engine skips like an unset filter. */
  lemma ClearedRangeIsSkipped(id: string, mapping: map<string, string>, filters: seq<DashboardFilter>)
    ensures Effective(id, Cleared, mapping, filters).None?
  {
  }
}
