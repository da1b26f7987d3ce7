/** The entities of the dashboard builder (types.ts). Timestamps are integers
    (milliseconds); a free-form record such as a data source's connection settings is a
    Row of opaque values. */
module Model {
  import opened Common
  import opened Values

  datatype ChartType = BAR | LINE | PIE | AREA | SCATTER | HEATMAP | TABLE | HTML | INDICATOR

  datatype AggregationType = NONE | SUM | AVG | MIN | MAX | COUNT

  datatype FilterType = DATE_RANGE | SELECT | TEXT

  /** The current value of a dashboard filter: a string (a SELECT choice or TEXT), a
      date range whose bounds may be absent, or null (a cleared range). */
  datatype FilterValue = Choice(s: string) | Range(start: Option<string>, end: Option<string>) | Cleared

  datatype DashboardFilter = DashboardFilter(
    id: string,
    labelText: string,   // the filter's label
    filterType: FilterType,
    options: Option<seq<string>>,
    defaultValue: Option<FilterValue>)

  datatype WidgetConfig = WidgetConfig(
    xAxis: Option<string>,
    dataKeys: Option<seq<string>>,
    colors: Option<seq<string>>,
    htmlContent: Option<string>,
    queryId: Option<string>,
    aggregation: Option<AggregationType>,
    filterMapping: Option<map<string, string>>)

  /** Width in grid units and height in pixels. */
  datatype Layout = Layout(w: int, h: int)

  datatype Widget = Widget(
    id: string,
    chartType: ChartType,
    title: string,
    data: seq<Row>,
    config: WidgetConfig,
    layout: Layout)

  datatype Dashboard = Dashboard(
    id: string,
    workspaceId: string,
    name: string,
    description: Option<string>,
    widgets: seq<Widget>,
    filters: seq<DashboardFilter>)

  datatype Workspace = Workspace(id: string, name: string, ownerId: string, description: string)

  /** '15m' | '30m' | '1h' | 'midnight' */
  datatype CronInterval = FifteenMinutes | ThirtyMinutes | OneHour | Midnight

  datatype ScheduleType = MANUAL | AUTO

  /** A refresh schedule. An absent or empty next-run time are both None; an absent
      isSyncing is false. */
  datatype DataSourceSchedule = DataSourceSchedule(
    scheduleType: ScheduleType,
    interval: Option<CronInterval>,
    lastSyncedAt: Option<int>,
    nextSyncAt: Option<int>,
    isSyncing: bool)

  datatype DataSourceType = CSV | JSON | POSTGRES | MONGO | REST_API

  datatype SourceStatus = Connected | Error | Pending

  datatype DataSource = DataSource(
    id: string,
    workspaceId: string,
    name: string,
    sourceType: DataSourceType,
    config: Row,
    status: SourceStatus,
    schedule: DataSourceSchedule,
    lastErrorMessage: Option<string>)

  datatype SavedQuery = SavedQuery(
    id: string,
    workspaceId: string,
    name: string,
    sql: string,
    description: string,
    lastRunAt: Option<int>)

  datatype AuditLog = AuditLog(id: string, timestamp: int, user: string, action: string, details: string)

  datatype User = User(
    id: string,
    email: string,
    name: string,
    avatar: Option<string>,
    role: Option<string>,
    status: Option<string>)

  /** The first element with the given id (Array.prototype.find on id). */
  function FindFilter(filters: seq<DashboardFilter>, id: string): (r: Option<DashboardFilter>)
    ensures r.Some? ==> r.value in filters && r.value.id == id
    ensures r.None? ==> forall f :: f in filters ==> f.id != id
    decreases |filters|
  {
    if filters == [] then None
    else if filters[0].id == id then Some(filters[0])
    else FindFilter(filters[1..], id)
  }
}
