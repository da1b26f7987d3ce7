/** The add/edit widget form of components/dashboard/DashboardGrid.tsx: the field drops,
    opening the form for a new or an existing widget, the live preview, saving, and the
    reset afterwards. The form's state hooks are the fields of WidgetEditor; the
    dashboard it edits is passed in and the dashboard handed to onUpdateDashboard is
    returned. */
module Builder {
  import opened Common
  import opened Values
  import opened Model
  import opened Fixtures
  import opened Preview

  /** The editable values of the form. */
  datatype Form = Form(
    title: string,
    chartType: ChartType,
    sourceId: string,
    xField: string,
    valueField: string,
    columns: seq<string>,
    agg: AggregationType,
    mapping: map<string, string>)

  /** resetWidgetForm: every value back to its initial one except the selected source. */
  function ResetForm(f: Form): (r: Form)
    ensures r.sourceId == f.sourceId
    ensures r == Form("", BAR, r.sourceId, "", "", [], SUM, map[])
  {
    Form("", BAR, f.sourceId, "", "", [], SUM, map[])
  }

  /** The sources of one workspace, in their order (availableSources). */
  function WorkspaceSources(all: seq<DataSource>, workspaceId: string): (r: seq<DataSource>)
    ensures forall s :: s in r <==> s in all && s.workspaceId == workspaceId
    ensures forall s :: multiset(r)[s] == if s.workspaceId == workspaceId then multiset(all)[s] else 0
    ensures IsSubsequence(r, all)
  {
    var p := (s: DataSource) => s.workspaceId == workspaceId;
    KeepMeaning(all, p);
    Keep(all, p)
  }

  // ---------------------------------------------------------------------------
  // Drops onto the form

  datatype DropTarget = XAxisSlot | ValueSlot | ColumnsSlot | FilterSlot

  /** A column drop appends the field unless it is already a column. */
  function AddColumn(columns: seq<string>, field: string): (r: seq<string>)
    ensures field in r
    ensures forall c :: c in r <==> c in columns || c == field
    ensures field in columns ==> r == columns
    ensures Distinct(columns) ==> Distinct(r)
  {
    if field in columns then columns else columns + [field]
  }

  /** Everything after the first character of a run of white space. */
  function SkipSpaces(s: string): (r: string)
    ensures |r| <= |s|
    ensures r == [] || !IsJsSpace(r[0])
    decreases |s|
  {
    if s != [] && IsJsSpace(s[0]) then SkipSpaces(s[1..]) else s
  }

  /** replace(/\s+/g, '_'): every maximal run of white space becomes one underscore. */
  function UnderscoreSpaces(s: string): (r: string)
    ensures forall i :: 0 <= i < |r| ==> !IsJsSpace(r[i])
    decreases |s|
  {
    if s == [] then []
    else if IsJsSpace(s[0]) then
      var t := UnderscoreSpaces(SkipSpaces(s[1..]));
      assert forall i :: 1 <= i < |t| + 1 ==> ("_" + t)[i] == t[i - 1];
      "_" + t
    else
      var t := UnderscoreSpaces(s[1..]);
      assert forall i :: 1 <= i < |t| + 1 ==> ([s[0]] + t)[i] == t[i - 1];
      [s[0]] + t
  }

  /** Text without white space is left as it is. */
  lemma {:induction false} UnderscoreSpacesOfPlain(s: string)
    requires forall i :: 0 <= i < |s| ==> !IsJsSpace(s[i])
    ensures UnderscoreSpaces(s) == s
    decreases |s|
  {
    if s != [] {
      UnderscoreSpacesOfPlain(s[1..]);
      assert s == [s[0]] + s[1..];
    }
  }

  /** The id of a filter made by dropping a field: lower-cased, white-space runs replaced
      by an underscore. */
  function FilterIdOf(field: string): string
  {
    UnderscoreSpaces(Lower(field))
  }

  lemma {:induction false} LowerOfUnderscored(s: string)
    requires forall i :: 0 <= i < |s| ==> !('A' <= s[i] <= 'Z')
    ensures Lower(s) == s
    decreases |s|
  {
    if s != [] {
      LowerOfUnderscored(s[1..]);
      assert s == [s[0]] + s[1..];
    }
  }

  lemma {:induction false} NoUpperAfterUnderscore(s: string)
    requires forall i :: 0 <= i < |s| ==> !('A' <= s[i] <= 'Z')
    ensures forall i :: 0 <= i < |UnderscoreSpaces(s)| ==> !('A' <= UnderscoreSpaces(s)[i] <= 'Z')
    decreases |s|
  {
    if s != [] {
      if IsJsSpace(s[0]) {
        var rest := SkipSpaces(s[1..]);
        NoUpperSkip(s[1..]);
        NoUpperAfterUnderscore(rest);
        var t := UnderscoreSpaces(rest);
        assert UnderscoreSpaces(s) == "_" + t;
      } else {
        assert forall i :: 0 <= i < |s| - 1 ==> s[1..][i] == s[i + 1];
        NoUpperAfterUnderscore(s[1..]);
        assert UnderscoreSpaces(s) == [s[0]] + UnderscoreSpaces(s[1..]);
      }
    }
  }

  lemma {:induction false} NoUpperSkip(s: string)
    requires forall i :: 0 <= i < |s| ==> !('A' <= s[i] <= 'Z')
    ensures forall i :: 0 <= i < |SkipSpaces(s)| ==> !('A' <= SkipSpaces(s)[i] <= 'Z')
    decreases |s|
  {
    if s != [] && IsJsSpace(s[0]) {
      assert forall i :: 0 <= i < |s| - 1 ==> s[1..][i] == s[i + 1];
      NoUpperSkip(s[1..]);
    }
  }

  /** A filter id has no white space and no upper-case letter, so dropping a field named
      like an existing id gives that id again. */
  lemma FilterIdNormal(field: string)
    ensures var id := FilterIdOf(field);
      (forall i :: 0 <= i < |id| ==> !IsJsSpace(id[i]) && !('A' <= id[i] <= 'Z'))
      && FilterIdOf(id) == id
  {
    var low := Lower(field);
    forall i | 0 <= i < |low| ensures !('A' <= low[i] <= 'Z') {
      LowerAt(field, i);
    }
    NoUpperAfterUnderscore(low);
    var id := FilterIdOf(field);
    LowerOfUnderscored(id);
    UnderscoreSpacesOfPlain(id);
  }

  /** field.charAt(0).toUpperCase() + field.slice(1) */
  function Capitalized(field: string): (r: string)
    ensures |r| == |field|
    ensures |field| > 0 ==> r[0] == UpperChar(field[0]) && r[1..] == field[1..]
  {
    if field == [] then [] else [UpperChar(field[0])] + field[1..]
  }

  const MockOptions: seq<string> := ["Option A", "Option B", "Option C"]

  /** The SELECT filter a field drop creates. */
  function FilterFor(field: string): DashboardFilter
  {
    DashboardFilter(FilterIdOf(field), Capitalized(field), SELECT, Some(MockOptions), None)
  }

  /** The dashboard after a filter drop: a new SELECT filter is appended when none has
      the field's id. */
  function WithFilterFor(d: Dashboard, field: string): (r: Dashboard)
    ensures FindFilter(d.filters, FilterIdOf(field)).Some? ==> r == d
    ensures FindFilter(d.filters, FilterIdOf(field)).None? ==> r == d.(filters := d.filters + [FilterFor(field)])
  {
    if FindFilter(d.filters, FilterIdOf(field)).Some? then d
    else d.(filters := d.filters + [FilterFor(field)])
  }

  /** After a filter drop a filter with the field's id exists, nothing but the filter list
      changes, and dropping the same field again changes nothing more. */
  lemma WithFilterForMeaning(d: Dashboard, field: string)
    ensures var r := WithFilterFor(d, field);
      FindFilter(r.filters, FilterIdOf(field)).Some?
      && r == d.(filters := r.filters)
      && |d.filters| <= |r.filters| <= |d.filters| + 1
      && r.filters[..|d.filters|] == d.filters
      && WithFilterFor(r, field) == r
  {
    var r := WithFilterFor(d, field);
    var id := FilterIdOf(field);
    if FindFilter(d.filters, id).None? {
      assert r.filters[|d.filters|] == FilterFor(field);
    }
  }

  // ---------------------------------------------------------------------------
  // Opening the form for an existing widget

  /** x || '' on an optional string. */
  function OrEmpty(o: Option<string>): string
  {
    match o
    case Some(s) => s
    case None => ""
  }

  /** openEditModal: the form values loaded from a widget. The source becomes the
      widget's saved query, else the workspace's first source, else stays; a TABLE
      loads its columns and keeps the value field, any other type loads its first data
      key and keeps the columns. */
  function EditForm(w: Widget, available: seq<DataSource>, prior: Form): (r: Form)
    ensures r.title == w.title && r.chartType == w.chartType
    ensures r.sourceId == (if w.config.queryId.Some? && w.config.queryId.value != "" then w.config.queryId.value
                           else if |available| > 0 then available[0].id else prior.sourceId)
    ensures r.xField == OrEmpty(w.config.xAxis)
    ensures w.chartType == TABLE ==> r.columns == (if w.config.dataKeys.Some? then w.config.dataKeys.value else []) && r.valueField == prior.valueField
    ensures w.chartType != TABLE ==>
      (r.columns == prior.columns
       && r.valueField == (if w.config.dataKeys.Some? && |w.config.dataKeys.value| > 0 then w.config.dataKeys.value[0] else ""))
    ensures r.agg == (if w.config.aggregation.Some? then w.config.aggregation.value else SUM)
    ensures r.mapping == (if w.config.filterMapping.Some? then w.config.filterMapping.value else map[])
  {
    var c := w.config;
    var source := if c.queryId.Some? && c.queryId.value != "" then c.queryId.value
                  else if |available| > 0 then available[0].id else prior.sourceId;
    var columns := if w.chartType == TABLE then (if c.dataKeys.Some? then c.dataKeys.value else []) else prior.columns;
    var value := if w.chartType == TABLE then prior.valueField
                 else if c.dataKeys.Some? && |c.dataKeys.value| > 0 then c.dataKeys.value[0] else "";
    Form(w.title, w.chartType, source, OrEmpty(c.xAxis), value, columns,
         if c.aggregation.Some? then c.aggregation.value else SUM,
         if c.filterMapping.Some? then c.filterMapping.value else map[])
  }

  // ---------------------------------------------------------------------------
  // Saving

  /** The guard of handleSaveWidget: a title, and for every type but HTML the fields the
      type needs: columns for TABLE, a value field for INDICATOR, both x and value
      fields otherwise. */
  predicate SaveAllowed(f: Form)
  {
    f.title != ""
    && (f.chartType == HTML
        || (f.chartType == TABLE && |f.columns| > 0)
        || (f.chartType == INDICATOR && f.valueField != "")
        || (f.chartType !in {TABLE, INDICATOR} && f.xField != "" && f.valueField != ""))
  }

  const Palette: seq<string> := ["#3b82f6", "#10b981", "#f59e0b", "#8b5cf6", "#ef4444"]

  const HtmlPlaceholder: string := "<div class=\"p-4\">Edit HTML content</div>"

  /** The configuration a save writes. */
  function ConfigOf(f: Form): (c: WidgetConfig)
    ensures c.xAxis.None? <==> f.chartType in {TABLE, INDICATOR}
    ensures c.xAxis.Some? ==> c.xAxis.value == f.xField
    ensures c.dataKeys == Some(if f.chartType == TABLE then f.columns else [f.valueField])
    ensures c.colors == Some(Palette)
    ensures c.aggregation == (if f.chartType == TABLE then None else Some(f.agg))
    ensures c.htmlContent.Some? <==> f.chartType == HTML
    ensures c.filterMapping == Some(f.mapping)
    ensures c.queryId.Some? <==> StartsWith(f.sourceId, "sq-")
    ensures c.queryId.Some? ==> c.queryId.value == f.sourceId
  {
    WidgetConfig(
      if f.chartType in {TABLE, INDICATOR} then None else Some(f.xField),
      Some(if f.chartType == TABLE then f.columns else [f.valueField]),
      Some(Palette),
      if f.chartType == HTML then Some(HtmlPlaceholder) else None,
      if StartsWith(f.sourceId, "sq-") then Some(f.sourceId) else None,
      if f.chartType == TABLE then None else Some(f.agg),
      Some(f.mapping))
  }

  /** The widget a save creates: a TABLE spans all three columns, the rest one, and every
      new widget is 300 pixels high. */
  function NewWidget(f: Form, preview: seq<Row>, newId: string): (w: Widget)
    ensures w.layout == Layout(if f.chartType == TABLE then 3 else 1, 300)
  {
    Widget(newId, f.chartType, f.title, preview, ConfigOf(f), Layout(if f.chartType == TABLE then 3 else 1, 300))
  }

  /** The widget being edited after a save. The source spreads the new configuration over
      the old one, and the new one names all seven keys, so the old configuration is
      overwritten entirely. */
  function Edited(w: Widget, f: Form, preview: seq<Row>): Widget
  {
    w.(title := f.title, chartType := f.chartType, data := preview, config := ConfigOf(f))
  }

  /** The widget list after a save: when editing (a non-empty id) only that widget is
      updated; otherwise the new widget is appended. */
  function SavedWidgets(ws: seq<Widget>, editingId: Option<string>, f: Form, preview: seq<Row>, newId: string): seq<Widget>
  {
    if editingId.Some? && editingId.value != "" then
      seq(|ws|, i requires 0 <= i < |ws| => if ws[i].id == editingId.value then Edited(ws[i], f, preview) else ws[i])
    else ws + [NewWidget(f, preview, newId)]
  }

  /** An edit keeps every widget's id, layout and position, and changes only the widget
      being edited, which gets the form's title, type, configuration and the preview. */
  lemma SaveEditMeaning(ws: seq<Widget>, id: string, f: Form, preview: seq<Row>, newId: string)
    requires id != ""
    ensures var r := SavedWidgets(ws, Some(id), f, preview, newId);
      |r| == |ws|
      && forall i :: 0 <= i < |ws| ==>
        r[i].id == ws[i].id && r[i].layout == ws[i].layout
        && (ws[i].id != id ==> r[i] == ws[i])
        && (ws[i].id == id ==> r[i].title == f.title && r[i].chartType == f.chartType
                               && r[i].data == preview && r[i].config == ConfigOf(f))
  {
  }

  /** A create appends exactly one widget with the new id, the form's values and the
      preview, and keeps the others. */
  lemma SaveCreateMeaning(ws: seq<Widget>, editingId: Option<string>, f: Form, preview: seq<Row>, newId: string)
    requires editingId.None? || editingId.value == ""
    ensures var r := SavedWidgets(ws, editingId, f, preview, newId);
      |r| == |ws| + 1 && r[..|ws|] == ws
      && r[|ws|].id == newId && r[|ws|].title == f.title && r[|ws|].chartType == f.chartType
      && r[|ws|].data == preview && r[|ws|].config == ConfigOf(f)
      && r[|ws|].layout == Layout(if f.chartType == TABLE then 3 else 1, 300)
  {
    var r := SavedWidgets(ws, editingId, f, preview, newId);
    assert r == ws + [NewWidget(f, preview, newId)];
  }

  /** Opening a saved widget for editing loads back what was saved: title, type, the
      x field for types that keep one, the columns of a TABLE or the value field of any
      other type, the aggregation (SUM for a TABLE, which saves none), the filter
      mapping and a saved-query source. */
  lemma SaveThenEditRestoresForm(f: Form, preview: seq<Row>, newId: string, available: seq<DataSource>, prior: Form)
    ensures var g := EditForm(NewWidget(f, preview, newId), available, prior);
      g.title == f.title && g.chartType == f.chartType
      && g.xField == (if f.chartType in {TABLE, INDICATOR} then "" else f.xField)
      && (f.chartType == TABLE ==> g.columns == f.columns)
      && (f.chartType != TABLE ==> g.valueField == f.valueField)
      && g.agg == (if f.chartType == TABLE then SUM else f.agg)
      && g.mapping == f.mapping
      && (StartsWith(f.sourceId, "sq-") ==> g.sourceId == f.sourceId)
  {
    var c := ConfigOf(f);
    if StartsWith(f.sourceId, "sq-") {
      assert f.sourceId[0] == 's';
    }
  }

  // ---------------------------------------------------------------------------
  // The form's state

  class WidgetEditor {
    var editingId: Option<string>
    var title: string
    var chartType: ChartType
    var sourceId: string
    var xField: string
    var valueField: string
    var columns: seq<string>
    var agg: AggregationType
    var mapping: map<string, string>
    var preview: seq<Row>
    var fields: seq<string>
    var showModal: bool

    /** The form's values. */
    function FormValue(): Form
      reads this
    {
      Form(title, chartType, sourceId, xField, valueField, columns, agg, mapping)
    }

    constructor()
      ensures editingId == None && !showModal && preview == [] && fields == []
      ensures FormValue() == Form("", BAR, "", "", "", [], SUM, map[])
    {
      editingId := None;
      title, chartType, sourceId := "", BAR, "";
      xField, valueField, columns := "", "", [];
      agg, mapping := SUM, map[];
      preview, fields := [], [];
      showModal := false;
    }

    /** The form's eight setters called together. */
    method SetForm(f: Form)
      modifies this
      ensures FormValue() == f
      ensures preview == old(preview) && fields == old(fields)
      ensures editingId == old(editingId) && showModal == old(showModal)
    {
      title, chartType, sourceId, xField := f.title, f.chartType, f.sourceId, f.xField;
      valueField, columns, agg, mapping := f.valueField, f.columns, f.agg, f.mapping;
    }

    /** resetWidgetForm: clears the form, the preview and the edited id; the selected
        source and whether the form is open stay. */
    method Reset()
      modifies this
      ensures FormValue() == ResetForm(old(FormValue()))
      ensures preview == [] && fields == [] && editingId == None
      ensures showModal == old(showModal)
    {
      SetForm(ResetForm(FormValue()));
      preview, fields, editingId := [], [], None;
    }

    /** openAddModal */
    method OpenAdd()
      modifies this
      ensures FormValue() == ResetForm(old(FormValue()))
      ensures preview == [] && fields == [] && editingId == None && showModal
    {
      Reset();
      editingId := None;
      showModal := true;
    }

    /** openEditModal: loads the widget into the form; the preview is left to the
        preview effect. */
    method OpenEdit(w: Widget, available: seq<DataSource>)
      modifies this
      ensures FormValue() == EditForm(w, available, old(FormValue()))
      ensures editingId == Some(w.id) && showModal
      ensures preview == old(preview) && fields == old(fields)
    {
      SetForm(EditForm(w, available, FormValue()));
      editingId, showModal := Some(w.id), true;
    }

    /** The preview effect, run after any change of source, type, fields, aggregation or
        columns. */
    method RefreshPreview(scatter: seq<Row>)
      requires ScatterSample(scatter)
      modifies this
      ensures PreviewState(preview, fields)
        == PreviewFor(old(sourceId), old(chartType), old(xField), old(valueField), old(agg), old(columns), scatter)
      ensures FormValue() == old(FormValue()) && editingId == old(editingId) && showModal == old(showModal)
    {
      var p := PreviewFor(sourceId, chartType, xField, valueField, agg, columns, scatter);
      preview, fields := p.rows, p.fields;
    }

    /** handleDrop: a field dropped on a slot of the form. Only a filter drop changes the
        dashboard. */
    method Drop(target: DropTarget, field: string, d: Dashboard) returns (r: Dashboard)
      modifies this
      ensures target == XAxisSlot ==> FormValue() == old(FormValue()).(xField := field) && r == d
      ensures target == ValueSlot ==> FormValue() == old(FormValue()).(valueField := field) && r == d
      ensures target == ColumnsSlot ==> FormValue() == old(FormValue()).(columns := AddColumn(old(columns), field)) && r == d
      ensures target == FilterSlot ==>
        (r == WithFilterFor(d, field)
         && FormValue() == old(FormValue()).(mapping := old(mapping)[FilterIdOf(field) := field]))
      ensures preview == old(preview) && fields == old(fields)
      ensures editingId == old(editingId) && showModal == old(showModal)
    {
      r := d;
      match target
      case XAxisSlot => xField := field;
      case ValueSlot => valueField := field;
      case ColumnsSlot =>
        if field !in columns {
          columns := columns + [field];
        }
      case FilterSlot =>
        var id := FilterIdOf(field);
        if FindFilter(d.filters, id).None? {
          r := d.(filters := d.filters + [FilterFor(field)]);
        }
        mapping := mapping[id := field];
    }

    /** handleSaveWidget: nothing without the fields the type needs; otherwise the
        widget is updated or created, the form closes and is reset. The new widget's id
        is "w-" followed by the current time in milliseconds. */
    method Save(d: Dashboard, now: nat) returns (r: Dashboard)
      modifies this
      ensures !SaveAllowed(old(FormValue())) ==>
        (r == d && FormValue() == old(FormValue())
         && editingId == old(editingId) && showModal == old(showModal)
         && preview == old(preview) && fields == old(fields))
      ensures SaveAllowed(old(FormValue())) ==>
        (r == d.(widgets := SavedWidgets(d.widgets, old(editingId), old(FormValue()), old(preview), "w-" + NatText(now)))
         && FormValue() == ResetForm(old(FormValue()))
         && !showModal && editingId == None && preview == [] && fields == [])
    {
      var f := FormValue();
      if !SaveAllowed(f) {
        return d;
      }
      r := d.(widgets := SavedWidgets(d.widgets, editingId, f, preview, "w-" + NatText(now)));
      showModal := false;
      Reset();
    }
  }
}
