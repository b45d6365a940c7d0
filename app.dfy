/**
  * The application shell (src/App.tsx): which view is shown for the
  * authentication state, the signed-in user's role and the active tab.
  */
module App {
  import opened Seqs
  import opened Sidebar

  /** The views the shell can render; the components behind them are not part of this module. */
  datatype View =
    | LoadingView
    | LoginView
    | AdminDashboardView
    | StudentDashboardView
    | Phq9AssessmentView
    | AIChatView
    | ResourceLibraryView
    | ComingSoonView

  datatype User = User(role: string)

  /** The tabs `renderContent` routes to a component; every other tab shows the placeholder. */
  const RoutedTabs: set<string> := {"dashboard", "assessment", "chat", "resources", "analytics"}

  predicate IsAdmin(role: string) {
    role == "system_admin" || role == "college_admin"
  }

  /** `renderContent`: a switch on the active tab; only the dashboard tab looks at the role. */
  function RenderContent(role: string, tab: string): (v: View)
    ensures v == ComingSoonView <==> tab !in RoutedTabs
    ensures tab == "dashboard" ==> v == (if IsAdmin(role) then AdminDashboardView else StudentDashboardView)
    ensures tab == "assessment" <==> v == Phq9AssessmentView
    ensures tab == "chat" <==> v == AIChatView
    ensures tab == "resources" <==> v == ResourceLibraryView
    ensures v == AdminDashboardView <==> tab == "analytics" || (tab == "dashboard" && IsAdmin(role))
    ensures v != LoadingView && v != LoginView
  {
    match tab
    case "dashboard" => if IsAdmin(role) then AdminDashboardView else StudentDashboardView
    case "assessment" => Phq9AssessmentView
    case "chat" => AIChatView
    case "resources" => ResourceLibraryView
    case "analytics" => AdminDashboardView
    case _ => ComingSoonView
  }

  /** `AppContent`: the loading view first, then the login form without a user, then the routed content. */
  function AppContent(loading: bool, user: Option<User>, shell: Shell): (v: View)
    ensures loading <==> v == LoadingView
    ensures !loading && user.None? <==> v == LoginView
    ensures !loading && user.Some? ==> v == RenderContent(user.value.role, shell.activeTab)
  {
    if loading then LoadingView
    else if user.None? then LoginView
    else RenderContent(user.value.role, shell.activeTab)
  }

  /** The shell's state on first render: the dashboard tab, menu closed. */
  function InitialShell(): (s: Shell)
    ensures s.activeTab == "dashboard" && !s.sidebarOpen
  {
    Shell("dashboard", false)
  }

  /** The navigation bar's menu button opens the menu and keeps the tab. */
  function OpenMenu(shell: Shell): (s: Shell)
    ensures s.sidebarOpen && s.activeTab == shell.activeTab
  {
    shell.(sidebarOpen := true)
  }

  /** A signed-in user first sees their role's dashboard. */
  lemma FirstViewIsDashboard(user: User)
    ensures AppContent(false, Some(user), InitialShell()) ==
            (if IsAdmin(user.role) then AdminDashboardView else StudentDashboardView)
  {
  }

  /** The placeholder entries of a role's menu: the ones `renderContent` has no case for. */
  function PlaceholderIds(role: string): (ids: set<string>)
    ensures ids <= {"appointments", "students", "users", "crisis-alerts"}
  {
    if role == "counselor" then {"appointments", "students", "crisis-alerts"}
    else if IsAdmin(role) then {"users", "crisis-alerts"}
    else {}
  }

  /**
    * Following the menu of the signed-in user's role: an entry shows the
    * placeholder exactly when it is one of that role's placeholder entries;
    * a student's menu is therefore routed in full.
    */
  lemma {:induction false} MenuRouting(role: string, table: LanguageContext.Dictionary, k: nat)
    requires k < |MenuItems(Some(role), table)|
    ensures var id := MenuItems(Some(role), table)[k].id;
            RenderContent(role, id) == ComingSoonView <==> id in PlaceholderIds(role)
  {
    var items := MenuItems(Some(role), table);
    var ids := Ids(items);
    MenuIdsByRole(Some(role), table);
    assert items[k].id == ids[k];
    if role == "student" {
      assert ids == ["dashboard", "assessment", "chat", "resources"];
    } else if role == "counselor" {
      assert ids == ["dashboard", "appointments", "students", "resources", "crisis-alerts"];
    } else if IsAdmin(role) {
      assert IsAdminRole(Some(role));
      assert ids == ["dashboard", "analytics", "users", "resources", "crisis-alerts"];
    } else {
      assert !HasOwnMenu(Some(role));
      assert ids == ["dashboard"];
    }
  }

  /** Clicking a menu entry and then rendering shows the view of that entry's tab. */
  lemma ClickThenRender(shell: Shell, user: User, table: LanguageContext.Dictionary, k: nat)
    requires k < |MenuItems(Some(user.role), table)|
    ensures var item := MenuItems(Some(user.role), table)[k];
            AppContent(false, Some(user), SelectItem(shell, item)) == RenderContent(user.role, item.id)
  {
  }
}
