/** The main layout of App.tsx: which workspace and page are active, the view, the
    create-workspace and create-page forms and the schedule dialog's draft. The layout's
    calls into the workspace store are returned as requests; Workspaces.Store carries them
    out. */
module Shell {
  import opened Common
  import opened Model
  import opened Builder

  datatype View = DashboardView | QueryView | SourcesView | UsersView | LogsView

  /** A call the layout makes into the workspace store. */
  datatype Request =
    | AddWorkspaceRequest(name: string, description: string)
    | AddDashboardRequest(workspaceId: string, name: string)
    | UpdateScheduleRequest(sourceId: string, schedule: DataSourceSchedule)

  const ManualSchedule: DataSourceSchedule := DataSourceSchedule(MANUAL, None, None, None, false)

  /** The dashboards of one workspace, in their order (workspaceDashboards). */
  function WorkspaceDashboards(dashboards: seq<Dashboard>, workspaceId: string): seq<Dashboard>
  {
    Keep(dashboards, (d: Dashboard) => d.workspaceId == workspaceId)
  }

  /** The page the second effect settles on: the current page when it is one of the
      workspace's dashboards, else the first of them, else none. */
  function SettledPage(dashboards: seq<Dashboard>, workspaceId: string, current: string): string
  {
    var ws := WorkspaceDashboards(dashboards, workspaceId);
    if ws == [] then ""
    else if exists d :: d in ws && d.id == current then current
    else ws[0].id
  }

  /** The settled page is a dashboard of the workspace whenever it has one, and none
      otherwise; a valid current page is kept. */
  lemma SettledPageMeaning(dashboards: seq<Dashboard>, workspaceId: string, current: string)
    ensures var p := SettledPage(dashboards, workspaceId, current);
      ((exists d :: d in dashboards && d.workspaceId == workspaceId) ==>
         exists d :: d in dashboards && d.workspaceId == workspaceId && d.id == p)
      && ((forall d :: d in dashboards ==> d.workspaceId != workspaceId) ==> p == "")
      && ((exists d :: d in dashboards && d.workspaceId == workspaceId && d.id == current) ==> p == current)
  {
    var p := (d: Dashboard) => d.workspaceId == workspaceId;
    KeepOrder(dashboards, p);
    var ws := WorkspaceDashboards(dashboards, workspaceId);
    if ws != [] {
      assert ws[0] in ws;
    } else {
      assert forall d :: d in dashboards ==> d.workspaceId != workspaceId;
    }
  }

  /** Settling twice settles nowhere new. */
  lemma SettledPageIdempotent(dashboards: seq<Dashboard>, workspaceId: string, current: string)
    ensures var p := SettledPage(dashboards, workspaceId, current);
      SettledPage(dashboards, workspaceId, p) == p
  {
    var ws := WorkspaceDashboards(dashboards, workspaceId);
    if ws != [] {
      assert ws[0] in ws;
    }
  }

  /** The radio buttons and the select of the schedule dialog. */
  function ToManual(s: DataSourceSchedule): (r: DataSourceSchedule)
    ensures r.scheduleType == MANUAL && r.(scheduleType := s.scheduleType) == s
  {
    s.(scheduleType := MANUAL)
  }

  function ToAuto(s: DataSourceSchedule): (r: DataSourceSchedule)
    ensures r.scheduleType == AUTO && r.interval.Some?
    ensures s.interval.Some? ==> r.interval == s.interval
    ensures s.interval.None? ==> r.interval == Some(OneHour)
    ensures r.(scheduleType := s.scheduleType, interval := s.interval) == s
  {
    s.(scheduleType := AUTO, interval := if s.interval.Some? then s.interval else Some(OneHour))
  }

  function WithInterval(s: DataSourceSchedule, i: CronInterval): (r: DataSourceSchedule)
    ensures r.interval == Some(i) && r.(interval := s.interval) == s
  {
    s.(interval := Some(i))
  }

  /** Switching to manual and back to automatic restores an automatic draft, and
      switching to automatic and back restores a manual draft that already had an
      interval. */
  lemma ScheduleToggleRoundTrip(s: DataSourceSchedule)
    ensures s.scheduleType == AUTO && s.interval.Some? ==> ToAuto(ToManual(s)) == s
    ensures s.scheduleType == MANUAL && s.interval.Some? ==> ToManual(ToAuto(s)) == s
  {
  }

  class Layout {
    var activeWorkspaceId: string
    var activePageId: string
    var view: View
    var newWsName: string
    var isAddWsOpen: bool
    var newPageName: string
    var isAddPageOpen: bool
    var scheduleModalOpen: bool
    var editingSourceId: Option<string>
    var tempSchedule: DataSourceSchedule

    constructor()
      ensures activeWorkspaceId == "" && activePageId == "" && view == DashboardView
      ensures newWsName == "" && newPageName == "" && !isAddWsOpen && !isAddPageOpen
      ensures !scheduleModalOpen && editingSourceId.None? && tempSchedule == ManualSchedule
    {
      activeWorkspaceId, activePageId, view := "", "", DashboardView;
      newWsName, isAddWsOpen, newPageName, isAddPageOpen := "", false, "", false;
      scheduleModalOpen, editingSourceId, tempSchedule := false, None, ManualSchedule;
    }

    /** The first effect: with no workspace active, the first workspace becomes active. */
    method SyncWorkspace(workspaces: seq<Workspace>)
      modifies this
      ensures activeWorkspaceId == (if |workspaces| > 0 && old(activeWorkspaceId) == "" then workspaces[0].id else old(activeWorkspaceId))
      ensures activePageId == old(activePageId) && view == old(view)
      ensures newWsName == old(newWsName) && newPageName == old(newPageName) && tempSchedule == old(tempSchedule)
      ensures isAddWsOpen == old(isAddWsOpen) && isAddPageOpen == old(isAddPageOpen)
      ensures scheduleModalOpen == old(scheduleModalOpen) && editingSourceId == old(editingSourceId)
    {
      if |workspaces| > 0 && activeWorkspaceId == "" {
        activeWorkspaceId := workspaces[0].id;
      }
    }

    /** The second effect: with a workspace active, the page settles on one of its
        dashboards and the view returns to the dashboard. */
    method SyncPage(dashboards: seq<Dashboard>)
      modifies this
      ensures old(activeWorkspaceId) != "" ==>
        activePageId == SettledPage(dashboards, old(activeWorkspaceId), old(activePageId)) && view == DashboardView
      ensures old(activeWorkspaceId) == "" ==> activePageId == old(activePageId) && view == old(view)
      ensures activeWorkspaceId == old(activeWorkspaceId)
      ensures newWsName == old(newWsName) && newPageName == old(newPageName) && tempSchedule == old(tempSchedule)
      ensures isAddWsOpen == old(isAddWsOpen) && isAddPageOpen == old(isAddPageOpen)
      ensures scheduleModalOpen == old(scheduleModalOpen) && editingSourceId == old(editingSourceId)
    {
      if activeWorkspaceId != "" {
        var ws := WorkspaceDashboards(dashboards, activeWorkspaceId);
        if |ws| > 0 {
          if !(exists d :: d in ws && d.id == activePageId) {
            activePageId := ws[0].id;
          }
        } else {
          activePageId := "";
        }
        view := DashboardView;
      }
    }

    /** The workspace picker. */
    method SelectWorkspace(id: string)
      modifies this
      ensures activeWorkspaceId == id && activePageId == old(activePageId) && view == old(view)
      ensures newWsName == old(newWsName) && newPageName == old(newPageName) && tempSchedule == old(tempSchedule)
      ensures isAddWsOpen == old(isAddWsOpen) && isAddPageOpen == old(isAddPageOpen)
      ensures scheduleModalOpen == old(scheduleModalOpen) && editingSourceId == old(editingSourceId)
    {
      activeWorkspaceId := id;
    }

    /** A page link of the sidebar. */
    method OpenPage(id: string)
      modifies this
      ensures activePageId == id && view == DashboardView && activeWorkspaceId == old(activeWorkspaceId)
      ensures newWsName == old(newWsName) && newPageName == old(newPageName) && tempSchedule == old(tempSchedule)
      ensures isAddWsOpen == old(isAddWsOpen) && isAddPageOpen == old(isAddPageOpen)
      ensures scheduleModalOpen == old(scheduleModalOpen) && editingSourceId == old(editingSourceId)
    {
      activePageId, view := id, DashboardView;
    }

    /** The query, sources, users and logs links of the sidebar. */
    method ShowView(v: View)
      modifies this
      ensures view == v && activePageId == old(activePageId) && activeWorkspaceId == old(activeWorkspaceId)
      ensures newWsName == old(newWsName) && newPageName == old(newPageName) && tempSchedule == old(tempSchedule)
      ensures isAddWsOpen == old(isAddWsOpen) && isAddPageOpen == old(isAddPageOpen)
      ensures scheduleModalOpen == old(scheduleModalOpen) && editingSourceId == old(editingSourceId)
    {
      view := v;
    }

    /** The workspace dialog's name input. */
    method TypeWorkspaceName(s: string)
      modifies this
      ensures newWsName == s && isAddWsOpen == old(isAddWsOpen)
      ensures newPageName == old(newPageName) && isAddPageOpen == old(isAddPageOpen)
      ensures activeWorkspaceId == old(activeWorkspaceId) && activePageId == old(activePageId) && view == old(view)
      ensures scheduleModalOpen == old(scheduleModalOpen) && editingSourceId == old(editingSourceId)
      ensures tempSchedule == old(tempSchedule)
    {
      newWsName := s;
    }

    /** The page dialog's name input. */
    method TypePageName(s: string)
      modifies this
      ensures newPageName == s && isAddPageOpen == old(isAddPageOpen)
      ensures newWsName == old(newWsName) && isAddWsOpen == old(isAddWsOpen)
      ensures activeWorkspaceId == old(activeWorkspaceId) && activePageId == old(activePageId) && view == old(view)
      ensures scheduleModalOpen == old(scheduleModalOpen) && editingSourceId == old(editingSourceId)
      ensures tempSchedule == old(tempSchedule)
    {
      newPageName := s;
    }

    /** The "+ ADD" button opens the workspace dialog and its onClose closes it; the name
        typed so far stays. */
    method SetWorkspaceDialog(open: bool)
      modifies this
      ensures isAddWsOpen == open && newWsName == old(newWsName)
      ensures newPageName == old(newPageName) && isAddPageOpen == old(isAddPageOpen)
      ensures activeWorkspaceId == old(activeWorkspaceId) && activePageId == old(activePageId) && view == old(view)
      ensures scheduleModalOpen == old(scheduleModalOpen) && editingSourceId == old(editingSourceId)
      ensures tempSchedule == old(tempSchedule)
    {
      isAddWsOpen := open;
    }

    /** The add-page buttons open the page dialog and its onClose closes it; the name
        typed so far stays. */
    method SetPageDialog(open: bool)
      modifies this
      ensures isAddPageOpen == open && newPageName == old(newPageName)
      ensures newWsName == old(newWsName) && isAddWsOpen == old(isAddWsOpen)
      ensures activeWorkspaceId == old(activeWorkspaceId) && activePageId == old(activePageId) && view == old(view)
      ensures scheduleModalOpen == old(scheduleModalOpen) && editingSourceId == old(editingSourceId)
      ensures tempSchedule == old(tempSchedule)
    {
      isAddPageOpen := open;
    }

    /** The schedule dialog's onClose: it closes without a request, keeping the draft. */
    method CloseSchedule()
      modifies this
      ensures !scheduleModalOpen && editingSourceId == old(editingSourceId) && tempSchedule == old(tempSchedule)
      ensures newWsName == old(newWsName) && isAddWsOpen == old(isAddWsOpen)
      ensures newPageName == old(newPageName) && isAddPageOpen == old(isAddPageOpen)
      ensures activeWorkspaceId == old(activeWorkspaceId) && activePageId == old(activePageId) && view == old(view)
    {
      scheduleModalOpen := false;
    }

    /** handleCreateWorkspace: nothing without a name; otherwise the workspace is
        requested, the name cleared and the dialog closed. */
    method CreateWorkspace() returns (req: Option<Request>)
      modifies this
      ensures old(newWsName) == "" ==> req.None? && newWsName == old(newWsName) && isAddWsOpen == old(isAddWsOpen)
      ensures old(newWsName) != "" ==>
        req == Some(AddWorkspaceRequest(old(newWsName), "New Workspace")) && newWsName == "" && !isAddWsOpen
      ensures activeWorkspaceId == old(activeWorkspaceId) && activePageId == old(activePageId) && view == old(view)
      ensures newPageName == old(newPageName) && isAddPageOpen == old(isAddPageOpen) && tempSchedule == old(tempSchedule)
      ensures scheduleModalOpen == old(scheduleModalOpen) && editingSourceId == old(editingSourceId)
    {
      req := None;
      if newWsName != "" {
        req := Some(AddWorkspaceRequest(newWsName, "New Workspace"));
        newWsName, isAddWsOpen := "", false;
      }
    }

    /** handleCreatePage: nothing without a name or an active workspace; otherwise the
        page is requested in the active workspace, the name cleared and the dialog
        closed. */
    method CreatePage() returns (req: Option<Request>)
      modifies this
      ensures old(newPageName) == "" || old(activeWorkspaceId) == "" ==>
        req.None? && newPageName == old(newPageName) && isAddPageOpen == old(isAddPageOpen)
      ensures old(newPageName) != "" && old(activeWorkspaceId) != "" ==>
        req == Some(AddDashboardRequest(old(activeWorkspaceId), old(newPageName))) && newPageName == "" && !isAddPageOpen
      ensures activeWorkspaceId == old(activeWorkspaceId) && activePageId == old(activePageId) && view == old(view)
      ensures newWsName == old(newWsName) && isAddWsOpen == old(isAddWsOpen) && tempSchedule == old(tempSchedule)
      ensures scheduleModalOpen == old(scheduleModalOpen) && editingSourceId == old(editingSourceId)
    {
      req := None;
      if newPageName != "" && activeWorkspaceId != "" {
        req := Some(AddDashboardRequest(activeWorkspaceId, newPageName));
        newPageName, isAddPageOpen := "", false;
      }
    }

    /** openScheduleModal: the draft starts as the source's schedule. */
    method OpenSchedule(ds: DataSource)
      modifies this
      ensures editingSourceId == Some(ds.id) && tempSchedule == ds.schedule && scheduleModalOpen
      ensures activeWorkspaceId == old(activeWorkspaceId) && activePageId == old(activePageId) && view == old(view)
      ensures newWsName == old(newWsName) && isAddWsOpen == old(isAddWsOpen)
      ensures newPageName == old(newPageName) && isAddPageOpen == old(isAddPageOpen)
    {
      editingSourceId, tempSchedule, scheduleModalOpen := Some(ds.id), ds.schedule, true;
    }

    /** The dialog's controls change the draft only. */
    method ChooseManual()
      modifies this
      ensures tempSchedule == ToManual(old(tempSchedule)) && editingSourceId == old(editingSourceId)
      ensures scheduleModalOpen == old(scheduleModalOpen) && activeWorkspaceId == old(activeWorkspaceId)
      ensures activePageId == old(activePageId) && view == old(view)
      ensures newWsName == old(newWsName) && isAddWsOpen == old(isAddWsOpen)
      ensures newPageName == old(newPageName) && isAddPageOpen == old(isAddPageOpen)
    {
      tempSchedule := ToManual(tempSchedule);
    }

    method ChooseAuto()
      modifies this
      ensures tempSchedule == ToAuto(old(tempSchedule)) && editingSourceId == old(editingSourceId)
      ensures scheduleModalOpen == old(scheduleModalOpen) && activeWorkspaceId == old(activeWorkspaceId)
      ensures activePageId == old(activePageId) && view == old(view)
      ensures newWsName == old(newWsName) && isAddWsOpen == old(isAddWsOpen)
      ensures newPageName == old(newPageName) && isAddPageOpen == old(isAddPageOpen)
    {
      tempSchedule := ToAuto(tempSchedule);
    }

    method ChooseInterval(i: CronInterval)
      modifies this
      ensures tempSchedule == WithInterval(old(tempSchedule), i) && editingSourceId == old(editingSourceId)
      ensures scheduleModalOpen == old(scheduleModalOpen) && activeWorkspaceId == old(activeWorkspaceId)
      ensures activePageId == old(activePageId) && view == old(view)
      ensures newWsName == old(newWsName) && isAddWsOpen == old(isAddWsOpen)
      ensures newPageName == old(newPageName) && isAddPageOpen == old(isAddPageOpen)
    {
      tempSchedule := WithInterval(tempSchedule, i);
    }

    /** handleSaveSchedule: the draft is requested for the edited source when there is
        one, and the dialog closes. */
    method SaveSchedule() returns (req: Option<Request>)
      modifies this
      ensures old(editingSourceId).Some? && old(editingSourceId).value != "" ==>
        req == Some(UpdateScheduleRequest(old(editingSourceId).value, old(tempSchedule)))
      ensures old(editingSourceId).None? || old(editingSourceId).value == "" ==> req.None?
      ensures !scheduleModalOpen && editingSourceId == old(editingSourceId) && tempSchedule == old(tempSchedule)
      ensures activeWorkspaceId == old(activeWorkspaceId) && activePageId == old(activePageId) && view == old(view)
      ensures newWsName == old(newWsName) && isAddWsOpen == old(isAddWsOpen)
      ensures newPageName == old(newPageName) && isAddPageOpen == old(isAddPageOpen)
    {
      req := None;
      if editingSourceId.Some? && editingSourceId.value != "" {
        req := Some(UpdateScheduleRequest(editingSourceId.value, tempSchedule));
      }
      scheduleModalOpen := false;
    }

    /** The sources listed for the active workspace (workspaceDataSources). */
    function ActiveSources(all: seq<DataSource>): (r: seq<DataSource>)
      reads this
      ensures forall s :: s in r <==> s in all && s.workspaceId == activeWorkspaceId
      ensures forall s :: multiset(r)[s] == if s.workspaceId == activeWorkspaceId then multiset(all)[s] else 0
      ensures IsSubsequence(r, all)
    {
      WorkspaceSources(all, activeWorkspaceId)
    }
  }
}
