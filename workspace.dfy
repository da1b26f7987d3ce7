/** The workspace store of components/context/WorkspaceContext.tsx: the lists of
    workspaces, dashboards, data sources, saved queries and audit logs, the operations
    that replace them, the next-run computation of refresh schedules, the refresh state
    machine and the heartbeat's due check. The signed-in user, the current time (in
    milliseconds) and the ids the database assigns to inserted rows are parameters. */
module Workspaces {
  import opened Common
  import opened Values
  import opened Model

  /** The signed-in user as the store sees it. */
  datatype Account = Account(id: string, name: string)

  // ---------------------------------------------------------------------------
  // Next run

  const MinuteMs: nat := 60 * 1000
  const DayMs: nat := 24 * 60 * MinuteMs

  /** calculateNextRun: the fixed intervals add 15, 30 or 60 minutes to now; midnight is
      the start of the next day; no interval gives no time (the empty string). */
  function NextRun(interval: Option<CronInterval>, now: nat): (r: Option<nat>)
    ensures r.None? <==> interval.None?
  {
    match interval
    case None => None
    case Some(FifteenMinutes) => Some(now + 15 * MinuteMs)
    case Some(ThirtyMinutes) => Some(now + 30 * MinuteMs)
    case Some(OneHour) => Some(now + 60 * MinuteMs)
    case Some(Midnight) => Some((now / DayMs + 1) * DayMs)
  }

  /** Every next run lies in the future, within a day; the fixed intervals are exact and
      midnight is the first day boundary after now. */
  lemma NextRunMeaning(interval: Option<CronInterval>, now: nat)
    requires interval.Some?
    ensures var t := NextRun(interval, now).value; now < t <= now + DayMs
    ensures interval == Some(FifteenMinutes) ==> NextRun(interval, now).value == now + 900000
    ensures interval == Some(ThirtyMinutes) ==> NextRun(interval, now).value == now + 1800000
    ensures interval == Some(OneHour) ==> NextRun(interval, now).value == now + 3600000
    ensures interval == Some(Midnight) ==>
      var t := NextRun(interval, now).value;
      t % DayMs == 0 && forall u: nat :: now < u < t ==> u % DayMs != 0
  {
    if interval == Some(Midnight) {
      var t := NextRun(interval, now).value;
      var k := now / DayMs;
      assert now == k * DayMs + now % DayMs;
      assert t == k * DayMs + DayMs;
      assert t % DayMs == 0;
      forall u: nat | now < u < t ensures u % DayMs != 0 {
        DivBetween(u, k);
        assert u % DayMs == u - k * DayMs;
      }
    }
  }

  /** Whole-day division of an instant inside day k gives k. */
  lemma DivBetween(u: nat, k: nat)
    requires k * DayMs <= u < (k + 1) * DayMs
    ensures u / DayMs == k
  {
    var q := u / DayMs;
    assert u == q * DayMs + u % DayMs;
    assert q * DayMs <= u < q * DayMs + DayMs;
    assert k * DayMs < q * DayMs + DayMs && q * DayMs < k * DayMs + DayMs;
    assert (k - q) * DayMs < DayMs && (q - k) * DayMs < DayMs;
  }

  // ---------------------------------------------------------------------------
  // Schedules and refresh

  /** The schedule stored by updateDataSourceSchedule: a next run exactly for AUTO. */
  function StoredSchedule(schedule: DataSourceSchedule, now: nat): (r: DataSourceSchedule)
    ensures r.nextSyncAt.Some? <==> schedule.scheduleType == AUTO && schedule.interval.Some?
    ensures r == schedule.(nextSyncAt := r.nextSyncAt)
  {
    schedule.(nextSyncAt := if schedule.scheduleType == AUTO then NextRun(schedule.interval, now) else None)
  }

  /** Each data source whose id matches, updated by f; all others kept. */
  function UpdateSource(sources: seq<DataSource>, id: string, f: DataSource -> DataSource): (r: seq<DataSource>)
    ensures |r| == |sources|
    ensures forall i :: 0 <= i < |sources| ==> r[i] == if sources[i].id == id then f(sources[i]) else sources[i]
  {
    seq(|sources|, i requires 0 <= i < |sources| => if sources[i].id == id then f(sources[i]) else sources[i])
  }

  /** The first source with the id (Array.prototype.find). */
  function FindSource(sources: seq<DataSource>, id: string): (r: Option<DataSource>)
    ensures r.Some? ==> r.value in sources && r.value.id == id
    ensures r.None? ==> forall s :: s in sources ==> s.id != id
    decreases |sources|
  {
    if sources == [] then None
    else if sources[0].id == id then Some(sources[0])
    else FindSource(sources[1..], id)
  }

  /** The schedule a successful refresh writes, built from the schedule read when the
      refresh started: not syncing, synced now, next run recomputed for AUTO. */
  function DoneSchedule(start: DataSourceSchedule, now: nat): (r: DataSourceSchedule)
    ensures !r.isSyncing && r.lastSyncedAt == Some(now)
    ensures r.nextSyncAt == (if start.scheduleType == AUTO then NextRun(start.interval, now) else None)
    ensures r.scheduleType == start.scheduleType && r.interval == start.interval
  {
    start.(isSyncing := false, lastSyncedAt := Some(now),
           nextSyncAt := if start.scheduleType == AUTO then NextRun(start.interval, now) else None)
  }

  /** The heartbeat's test: an AUTO source, not syncing, with a next run that has come. */
  predicate Due(s: DataSource, now: nat)
  {
    s.schedule.scheduleType == AUTO && !s.schedule.isSyncing
    && s.schedule.nextSyncAt.Some? && now >= s.schedule.nextSyncAt.value
  }

  /** The ids of the due sources, in list order. */
  function DueIds(sources: seq<DataSource>, now: nat): seq<string>
    decreases |sources|
  {
    if sources == [] then []
    else DueIds(sources[..|sources| - 1], now)
         + (if Due(sources[|sources| - 1], now) then [sources[|sources| - 1].id] else [])
  }

  /** The heartbeat calls the refresh with exactly the ids of the due sources. */
  lemma {:induction false} DueIdsMeaning(sources: seq<DataSource>, now: nat)
    ensures forall id :: id in DueIds(sources, now) <==> exists s :: s in sources && s.id == id && Due(s, now)
    decreases |sources|
  {
    if sources != [] {
      var init := sources[..|sources| - 1];
      var last := sources[|sources| - 1];
      DueIdsMeaning(init, now);
      assert sources == init + [last];
      forall id | id in DueIds(sources, now)
        ensures exists s :: s in sources && s.id == id && Due(s, now)
      {
        if id in DueIds(init, now) {
          var s :| s in init && s.id == id && Due(s, now);
          assert s in sources;
        } else {
          assert last in sources;
        }
      }
      forall id | exists s :: s in sources && s.id == id && Due(s, now)
        ensures id in DueIds(sources, now)
      {
        var s :| s in sources && s.id == id && Due(s, now);
        if s != last {
          assert s in init;
        }
      }
    }
  }

  /** A refresh started and finished in the same instant leaves nothing due: a source
      just refreshed is not syncing and its next run, if any, lies ahead. */
  lemma RefreshedIsNotDue(s: DataSource, now: nat)
    ensures !Due(s.(status := Connected, schedule := DoneSchedule(s.schedule, now)), now)
  {
    var d := DoneSchedule(s.schedule, now);
    if d.nextSyncAt.Some? {
      NextRunMeaning(s.schedule.interval, now);
    }
  }

  // ---------------------------------------------------------------------------
  // Logs

  /** Newest first: timestamps never increase along the list. */
  predicate NewestFirst(logs: seq<AuditLog>)
  {
    forall i, j :: 0 <= i < j < |logs| ==> logs[i].timestamp >= logs[j].timestamp
  }

  /** The entry addLog shows at once: a temporary id from the time, the user's name. */
  function LogEntry(user: Account, action: string, details: string, now: nat): AuditLog
  {
    AuditLog("temp-" + NatText(now), now, user.name, action, details)
  }

  /** Prepending an entry no older than the newest keeps the list newest-first. */
  lemma PrependKeepsNewestFirst(logs: seq<AuditLog>, entry: AuditLog)
    requires NewestFirst(logs)
    requires logs == [] || entry.timestamp >= logs[0].timestamp
    ensures NewestFirst([entry] + logs)
  {
    var r := [entry] + logs;
    forall i, j | 0 <= i < j < |r| ensures r[i].timestamp >= r[j].timestamp {
      if i == 0 {
        assert r[j] == logs[j - 1];
        assert logs[0].timestamp >= logs[j - 1].timestamp || j - 1 == 0;
      } else {
        assert r[i] == logs[i - 1] && r[j] == logs[j - 1];
      }
    }
  }

  /** Dashboards with the replacement put in place of each dashboard with its id. */
  function ReplaceDashboard(ds: seq<Dashboard>, updated: Dashboard): (r: seq<Dashboard>)
    ensures |r| == |ds|
    ensures forall i :: 0 <= i < |ds| ==> r[i] == if ds[i].id == updated.id then updated else ds[i]
  {
    seq(|ds|, i requires 0 <= i < |ds| => if ds[i].id == updated.id then updated else ds[i])
  }

  /** Replacing keeps every position's id, puts the update in where the id was, and
      replacing twice with the same dashboard is replacing once. */
  lemma ReplaceDashboardMeaning(ds: seq<Dashboard>, updated: Dashboard)
    ensures forall i :: 0 <= i < |ds| ==> ReplaceDashboard(ds, updated)[i].id == ds[i].id
    ensures (exists d :: d in ds && d.id == updated.id) ==> updated in ReplaceDashboard(ds, updated)
    ensures (forall d :: d in ds ==> d.id != updated.id) ==> ReplaceDashboard(ds, updated) == ds
    ensures ReplaceDashboard(ReplaceDashboard(ds, updated), updated) == ReplaceDashboard(ds, updated)
  {
    var r := ReplaceDashboard(ds, updated);
    if exists d :: d in ds && d.id == updated.id {
      var d :| d in ds && d.id == updated.id;
      var i :| 0 <= i < |ds| && ds[i] == d;
      assert r[i] == updated;
    }
  }

  /** The store. */
  class Store {
    var workspaces: seq<Workspace>
    var dashboards: seq<Dashboard>
    var dataSources: seq<DataSource>
    var savedQueries: seq<SavedQuery>
    var logs: seq<AuditLog>

    constructor()
      ensures workspaces == [] && dashboards == [] && dataSources == [] && savedQueries == [] && logs == []
    {
      workspaces, dashboards, dataSources, savedQueries, logs := [], [], [], [], [];
    }

    /** addLog: nothing without a user; otherwise one entry in front. */
    method AddLog(user: Option<Account>, action: string, details: string, now: nat)
      modifies this
      ensures user.None? ==> logs == old(logs)
      ensures user.Some? ==> logs == [LogEntry(user.value, action, details, now)] + old(logs)
      ensures NewestFirst(old(logs)) && (old(logs) == [] || now >= old(logs)[0].timestamp) ==> NewestFirst(logs)
      ensures workspaces == old(workspaces) && dashboards == old(dashboards)
      ensures dataSources == old(dataSources) && savedQueries == old(savedQueries)
    {
      if user.Some? {
        var entry := LogEntry(user.value, action, details, now);
        if NewestFirst(logs) && (logs == [] || now >= logs[0].timestamp) {
          PrependKeepsNewestFirst(logs, entry);
        }
        logs := [entry] + logs;
      }
    }

    /** addWorkspace: nothing without a user or without the inserted row's id; otherwise
        the workspace is appended and logged. */
    method AddWorkspace(user: Option<Account>, name: string, description: string, newId: Option<string>, now: nat)
      modifies this
      ensures user.None? || newId.None? ==> workspaces == old(workspaces) && logs == old(logs)
      ensures user.Some? && newId.Some? ==>
        workspaces == old(workspaces) + [Workspace(newId.value, name, user.value.id, description)]
        && logs == [LogEntry(user.value, "Create Workspace", "Created workspace \"" + name + "\"", now)] + old(logs)
      ensures dashboards == old(dashboards) && dataSources == old(dataSources) && savedQueries == old(savedQueries)
    {
      if user.None? || newId.None? {
        return;
      }
      workspaces := workspaces + [Workspace(newId.value, name, user.value.id, description)];
      AddLog(user, "Create Workspace", "Created workspace \"" + name + "\"", now);
    }

    /** deleteWorkspace: removes the workspace with its dashboards and data sources; saved
        queries stay; the deletion is logged when a user is signed in. */
    method DeleteWorkspace(user: Option<Account>, id: string, now: nat)
      modifies this
      ensures workspaces == Keep(old(workspaces), (w: Workspace) => w.id != id)
      ensures dashboards == Keep(old(dashboards), (d: Dashboard) => d.workspaceId != id)
      ensures dataSources == Keep(old(dataSources), (s: DataSource) => s.workspaceId != id)
      ensures savedQueries == old(savedQueries)
      ensures user.None? ==> logs == old(logs)
      ensures user.Some? ==> logs == [LogEntry(user.value, "Delete Workspace", "Deleted workspace ID " + id, now)] + old(logs)
    {
      workspaces := Keep(workspaces, (w: Workspace) => w.id != id);
      dashboards := Keep(dashboards, (d: Dashboard) => d.workspaceId != id);
      dataSources := Keep(dataSources, (s: DataSource) => s.workspaceId != id);
      AddLog(user, "Delete Workspace", "Deleted workspace ID " + id, now);
    }

    /** addDashboard: an empty dashboard when the insert returned a row. */
    method AddDashboard(user: Option<Account>, workspaceId: string, name: string, newId: Option<string>, now: nat)
      modifies this
      ensures newId.None? ==> dashboards == old(dashboards) && logs == old(logs)
      ensures newId.Some? ==> dashboards == old(dashboards) + [Dashboard(newId.value, workspaceId, name, None, [], [])]
      ensures newId.Some? && user.Some? ==>
        logs == [LogEntry(user.value, "Create Dashboard", "Created dashboard \"" + name + "\"", now)] + old(logs)
      ensures newId.Some? && user.None? ==> logs == old(logs)
      ensures workspaces == old(workspaces) && dataSources == old(dataSources) && savedQueries == old(savedQueries)
    {
      if newId.None? {
        return;
      }
      dashboards := dashboards + [Dashboard(newId.value, workspaceId, name, None, [], [])];
      AddLog(user, "Create Dashboard", "Created dashboard \"" + name + "\"", now);
    }

    /** updateDashboard: the dashboard with the same id is replaced in place. */
    method UpdateDashboard(user: Option<Account>, updated: Dashboard, now: nat)
      modifies this
      ensures dashboards == ReplaceDashboard(old(dashboards), updated)
      ensures user.None? ==> logs == old(logs)
      ensures user.Some? ==> logs == [LogEntry(user.value, "Update Dashboard", "Updated dashboard \"" + updated.name + "\"", now)] + old(logs)
      ensures workspaces == old(workspaces) && dataSources == old(dataSources) && savedQueries == old(savedQueries)
    {
      dashboards := ReplaceDashboard(dashboards, updated);
      AddLog(user, "Update Dashboard", "Updated dashboard \"" + updated.name + "\"", now);
    }

    /** deleteDashboard */
    method DeleteDashboard(user: Option<Account>, id: string, now: nat)
      modifies this
      ensures dashboards == Keep(old(dashboards), (d: Dashboard) => d.id != id)
      ensures user.None? ==> logs == old(logs)
      ensures user.Some? ==> logs == [LogEntry(user.value, "Delete Dashboard", "Deleted dashboard ID " + id, now)] + old(logs)
      ensures workspaces == old(workspaces) && dataSources == old(dataSources) && savedQueries == old(savedQueries)
    {
      dashboards := Keep(dashboards, (d: Dashboard) => d.id != id);
      AddLog(user, "Delete Dashboard", "Deleted dashboard ID " + id, now);
    }

    /** addDataSource: stored connected, on a manual schedule. */
    method AddDataSource(user: Option<Account>, source: DataSource, newId: Option<string>, now: nat)
      modifies this
      ensures newId.None? ==> dataSources == old(dataSources) && logs == old(logs)
      ensures newId.Some? ==>
        dataSources == old(dataSources)
          + [source.(id := newId.value, status := Connected, schedule := DataSourceSchedule(MANUAL, None, None, None, false),
                     lastErrorMessage := None)]
      ensures newId.Some? && user.Some? ==>
        logs == [LogEntry(user.value, "Add Data Source", "Connected source \"" + source.name + "\"", now)] + old(logs)
      ensures newId.Some? && user.None? ==> logs == old(logs)
      ensures workspaces == old(workspaces) && dashboards == old(dashboards) && savedQueries == old(savedQueries)
    {
      if newId.None? {
        return;
      }
      var stored := source.(id := newId.value, status := Connected, schedule := DataSourceSchedule(MANUAL, None, None, None, false),
                            lastErrorMessage := None);
      dataSources := dataSources + [stored];
      AddLog(user, "Add Data Source", "Connected source \"" + source.name + "\"", now);
    }

    /** saveQuery */
    method SaveQuery(user: Option<Account>, workspaceId: string, name: string, sql: string, newId: Option<string>, now: nat)
      modifies this
      ensures newId.None? ==> savedQueries == old(savedQueries) && logs == old(logs)
      ensures newId.Some? ==> savedQueries == old(savedQueries) + [SavedQuery(newId.value, workspaceId, name, sql, "Saved Query", None)]
      ensures newId.Some? && user.Some? ==>
        logs == [LogEntry(user.value, "Save Query", "Saved query \"" + name + "\"", now)] + old(logs)
      ensures newId.Some? && user.None? ==> logs == old(logs)
      ensures workspaces == old(workspaces) && dashboards == old(dashboards) && dataSources == old(dataSources)
    {
      if newId.None? {
        return;
      }
      savedQueries := savedQueries + [SavedQuery(newId.value, workspaceId, name, sql, "Saved Query", None)];
      AddLog(user, "Save Query", "Saved query \"" + name + "\"", now);
    }

    /** updateDataSourceSchedule: the source's schedule is replaced, with a next run
        exactly when it is AUTO. */
    method UpdateDataSourceSchedule(user: Option<Account>, id: string, schedule: DataSourceSchedule, now: nat)
      modifies this
      ensures dataSources == UpdateSource(old(dataSources), id, (s: DataSource) => s.(schedule := StoredSchedule(schedule, now)))
      ensures user.None? ==> logs == old(logs)
      ensures user.Some? ==> logs == [LogEntry(user.value, "Update Schedule", "Updated schedule for source " + id, now)] + old(logs)
      ensures workspaces == old(workspaces) && dashboards == old(dashboards) && savedQueries == old(savedQueries)
    {
      var stored := StoredSchedule(schedule, now);
      dataSources := UpdateSource(dataSources, id, (s: DataSource) => s.(schedule := stored));
      AddLog(user, "Update Schedule", "Updated schedule for source " + id, now);
    }

    /** The first step of triggerDataSourceRefresh: an unknown id changes nothing;
        otherwise the source read is returned and marked syncing. */
    method BeginRefresh(id: string) returns (started: Option<DataSource>)
      modifies this
      ensures started == FindSource(old(dataSources), id)
      ensures started.None? ==> dataSources == old(dataSources)
      ensures started.Some? ==>
        dataSources == UpdateSource(old(dataSources), id, (s: DataSource) => s.(schedule := started.value.schedule.(isSyncing := true)))
      ensures workspaces == old(workspaces) && dashboards == old(dashboards)
      ensures savedQueries == old(savedQueries) && logs == old(logs)
    {
      started := FindSource(dataSources, id);
      if started.Some? {
        var syncing := started.value.schedule.(isSyncing := true);
        dataSources := UpdateSource(dataSources, id, (s: DataSource) => s.(schedule := syncing));
      }
    }

    /** The end of a refresh started on `started`: success connects the source with the
        done schedule; failure marks it as an error with the schedule it had at the
        start, no longer syncing. Either outcome is logged. */
    method CompleteRefresh(user: Option<Account>, started: DataSource, succeeded: bool, now: nat)
      modifies this
      ensures succeeded ==> dataSources == UpdateSource(old(dataSources), started.id,
        (s: DataSource) => s.(status := Connected, schedule := DoneSchedule(started.schedule, now)))
      ensures !succeeded ==> dataSources == UpdateSource(old(dataSources), started.id,
        (s: DataSource) => s.(status := Error, schedule := started.schedule.(isSyncing := false)))
      ensures user.Some? && succeeded ==>
        logs == [LogEntry(user.value, "Data Refresh Success", "Refreshed source \"" + started.name + "\"", now)] + old(logs)
      ensures user.Some? && !succeeded ==>
        logs == [LogEntry(user.value, "Data Refresh Failed", "Failed to refresh source \"" + started.name + "\"", now)] + old(logs)
      ensures user.None? ==> logs == old(logs)
      ensures workspaces == old(workspaces) && dashboards == old(dashboards) && savedQueries == old(savedQueries)
    {
      if succeeded {
        var done := DoneSchedule(started.schedule, now);
        dataSources := UpdateSource(dataSources, started.id, (s: DataSource) => s.(status := Connected, schedule := done));
        AddLog(user, "Data Refresh Success", "Refreshed source \"" + started.name + "\"", now);
      } else {
        var failed := started.schedule.(isSyncing := false);
        dataSources := UpdateSource(dataSources, started.id, (s: DataSource) => s.(status := Error, schedule := failed));
        AddLog(user, "Data Refresh Failed", "Failed to refresh source \"" + started.name + "\"", now);
      }
    }

    /** One heartbeat: the ids of the sources to refresh, walked in list order. */
    method Heartbeat(now: nat) returns (due: seq<string>)
      ensures due == DueIds(dataSources, now)
    {
      due := [];
      var i := 0;
      while i < |dataSources|
        invariant 0 <= i <= |dataSources|
        invariant due == DueIds(dataSources[..i], now)
      {
        assert dataSources[..i + 1][..i] == dataSources[..i];
        if Due(dataSources[i], now) {
          due := due + [dataSources[i].id];
        }
        i := i + 1;
      }
      assert dataSources[..i] == dataSources;
    }
  }

  /** Deleting a workspace leaves no dashboard or data source of it, and keeps every
      other one in order. */
  lemma DeleteWorkspaceCascade(dashboards: seq<Dashboard>, sources: seq<DataSource>, id: string)
    ensures var ds := Keep(dashboards, (d: Dashboard) => d.workspaceId != id);
      IsSubsequence(ds, dashboards)
      && (forall d :: d in ds <==> d in dashboards && d.workspaceId != id)
      && forall d :: multiset(ds)[d] == if d.workspaceId != id then multiset(dashboards)[d] else 0
    ensures var ss := Keep(sources, (s: DataSource) => s.workspaceId != id);
      IsSubsequence(ss, sources)
      && (forall s :: s in ss <==> s in sources && s.workspaceId != id)
      && forall s :: multiset(ss)[s] == if s.workspaceId != id then multiset(sources)[s] else 0
  {
    OtherDashboards(dashboards, id);
    OtherSources(sources, id);
  }

  lemma OtherDashboards(dashboards: seq<Dashboard>, id: string)
    ensures var ds := Keep(dashboards, (d: Dashboard) => d.workspaceId != id);
      IsSubsequence(ds, dashboards)
      && (forall d :: d in ds <==> d in dashboards && d.workspaceId != id)
      && forall d :: multiset(ds)[d] == if d.workspaceId != id then multiset(dashboards)[d] else 0
  {
    KeepMeaning(dashboards, (d: Dashboard) => d.workspaceId != id);
  }

  lemma OtherSources(sources: seq<DataSource>, id: string)
    ensures var ss := Keep(sources, (s: DataSource) => s.workspaceId != id);
      IsSubsequence(ss, sources)
      && (forall s :: s in ss <==> s in sources && s.workspaceId != id)
      && forall s :: multiset(ss)[s] == if s.workspaceId != id then multiset(sources)[s] else 0
  {
    KeepMeaning(sources, (s: DataSource) => s.workspaceId != id);
  }

  /** The refresh state machine on one source: marked syncing at the start, then
      connected, not syncing, synced now and rescheduled on success, or in error, not
      syncing and with its earlier schedule otherwise. Other sources never change. */
  lemma RefreshOutcome(sources: seq<DataSource>, id: string, now: nat, succeeded: bool, i: nat)
    requires i < |sources| && FindSource(sources, id).Some?
    ensures var start := FindSource(sources, id).value;
      var begun := UpdateSource(sources, id, (s: DataSource) => s.(schedule := start.schedule.(isSyncing := true)));
      var ended := if succeeded
        then UpdateSource(begun, id, (s: DataSource) => s.(status := Connected, schedule := DoneSchedule(start.schedule, now)))
        else UpdateSource(begun, id, (s: DataSource) => s.(status := Error, schedule := start.schedule.(isSyncing := false)));
      (sources[i].id != id ==> begun[i] == sources[i] && ended[i] == sources[i])
      && (sources[i].id == id ==>
            begun[i].schedule.isSyncing
            && !ended[i].schedule.isSyncing
            && ended[i] == sources[i].(status := ended[i].status, schedule := ended[i].schedule)
            && (succeeded ==> ended[i].status == Connected && ended[i].schedule.lastSyncedAt == Some(now))
            && (!succeeded ==> ended[i].status == Error && ended[i].schedule == start.schedule.(isSyncing := false)))
  {
  }
}
