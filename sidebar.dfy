/**
  * The navigation menu (src/components/Layout/Sidebar.tsx): the menu items a
  * role sees and what clicking one does to the shell's state.
  */
module Sidebar {
  import opened Seqs
  import opened LanguageContext

  /** One menu entry; the icon is left out. */
  datatype MenuItem = MenuItem(id: string, title: string)

  /** The ids of a menu, in order. */
  function Ids(items: seq<MenuItem>): (ids: seq<string>)
    ensures |ids| == |items| && forall i :: 0 <= i < |items| ==> ids[i] == items[i].id
  {
    seq(|items|, i requires 0 <= i < |items| => items[i].id)
  }

  /** The two administrator roles, which share one menu. */
  predicate IsAdminRole(role: Option<string>) {
    role == Some("college_admin") || role == Some("system_admin")
  }

  /** A role with a menu of its own; `None` is a visitor with no user. */
  predicate HasOwnMenu(role: Option<string>) {
    role == Some("student") || role == Some("counselor") || IsAdminRole(role)
  }

  /**
    * `getMenuItems`: the dashboard entry, followed by the entries of the
    * user's role. Titles translated through `t` are looked up in `table`,
    * the active language's dictionary, and fall back to the English text
    * given at the call; the others are fixed.
    */
  function MenuItems(role: Option<string>, table: Dictionary): (items: seq<MenuItem>)
    ensures |items| >= 1 && items[0] == MenuItem("dashboard", TextOf(table, "nav.dashboard", Some("Dashboard")))
  {
    var base := [MenuItem("dashboard", TextOf(table, "nav.dashboard", Some("Dashboard")))];
    if role == Some("student") then
      base + [
        MenuItem("assessment", TextOf(table, "nav.assessment", Some("Assessment"))),
        MenuItem("chat", TextOf(table, "nav.chat", Some("Chat Support"))),
        MenuItem("resources", TextOf(table, "nav.resources", Some("Resources")))]
    else if role == Some("counselor") then
      base + [
        MenuItem("appointments", "My Appointments"),
        MenuItem("students", "Students"),
        MenuItem("resources", "Resources"),
        MenuItem("crisis-alerts", "Crisis Alerts")]
    else if IsAdminRole(role) then
      base + [
        MenuItem("analytics", TextOf(table, "nav.analytics", Some("Analytics"))),
        MenuItem("users", "User Management"),
        MenuItem("resources", "Resource Management"),
        MenuItem("crisis-alerts", "Crisis Management")]
    else
      base
  }

  /** The entries each role sees, in order. */
  lemma MenuIdsByRole(role: Option<string>, table: Dictionary)
    ensures role == Some("student") ==> Ids(MenuItems(role, table)) == ["dashboard", "assessment", "chat", "resources"]
    ensures role == Some("counselor") ==> Ids(MenuItems(role, table)) == ["dashboard", "appointments", "students", "resources", "crisis-alerts"]
    ensures IsAdminRole(role) ==> Ids(MenuItems(role, table)) == ["dashboard", "analytics", "users", "resources", "crisis-alerts"]
    ensures !HasOwnMenu(role) ==> Ids(MenuItems(role, table)) == ["dashboard"]
  {
    if role == Some("student") {
      StudentMenu(table);
    } else if role == Some("counselor") {
      CounselorMenu(table);
    } else if IsAdminRole(role) {
      AdminMenu(role, table);
    }
  }

  lemma StudentMenu(table: Dictionary)
    ensures Ids(MenuItems(Some("student"), table)) == ["dashboard", "assessment", "chat", "resources"]
  {
  }

  lemma StudentTitles(table: Dictionary)
    ensures forall i :: 0 <= i < |MenuItems(Some("student"), table)| ==> MenuItems(Some("student"), table)[i].title != ""
  {
  }

  lemma CounselorMenu(table: Dictionary)
    ensures Ids(MenuItems(Some("counselor"), table)) == ["dashboard", "appointments", "students", "resources", "crisis-alerts"]
    ensures forall i :: 0 <= i < |MenuItems(Some("counselor"), table)| ==> MenuItems(Some("counselor"), table)[i].title != ""
  {
  }

  lemma AdminMenu(role: Option<string>, table: Dictionary)
    requires IsAdminRole(role)
    ensures Ids(MenuItems(role, table)) == ["dashboard", "analytics", "users", "resources", "crisis-alerts"]
    ensures forall i :: 0 <= i < |MenuItems(role, table)| ==> MenuItems(role, table)[i].title != ""
  {
  }

  /** No menu lists an entry twice. */
  lemma MenuIdsDistinct(role: Option<string>, table: Dictionary)
    ensures NoDuplicates(Ids(MenuItems(role, table)))
  {
    MenuIdsByRole(role, table);
  }

  /** Every entry has a visible title, whatever the dictionary holds. */
  lemma MenuTitlesNonEmpty(role: Option<string>, table: Dictionary)
    ensures forall i :: 0 <= i < |MenuItems(role, table)| ==> MenuItems(role, table)[i].title != ""
  {
    if role == Some("student") {
      StudentTitles(table);
    } else if role == Some("counselor") {
      CounselorMenu(table);
    } else if IsAdminRole(role) {
      AdminMenu(role, table);
    }
  }

  /** The two administrator roles see the same menu, titles included. */
  lemma AdminMenusAgree(table: Dictionary)
    ensures MenuItems(Some("college_admin"), table) == MenuItems(Some("system_admin"), table)
  {
  }

  /** The state the menu reads and writes: the active tab and whether the mobile menu is open. */
  datatype Shell = Shell(activeTab: string, sidebarOpen: bool)

  /** An item is highlighted when its id is the active tab. */
  predicate IsActive(shell: Shell, item: MenuItem) {
    shell.activeTab == item.id
  }

  /** Clicking an item: its id becomes the active tab and the menu closes. */
  function SelectItem(shell: Shell, item: MenuItem): (s: Shell)
    ensures IsActive(s, item) && !s.sidebarOpen
  {
    Shell(item.id, false)
  }

  /** After a click exactly the clicked entry of the menu is highlighted. */
  lemma {:induction false} SelectHighlightsOnlyClicked(shell: Shell, role: Option<string>, table: Dictionary, k: nat)
    requires k < |MenuItems(role, table)|
    ensures var items := MenuItems(role, table);
            forall j :: 0 <= j < |items| ==> (IsActive(SelectItem(shell, items[k]), items[j]) <==> j == k)
  {
    var items := MenuItems(role, table);
    var ids := Ids(items);
    MenuIdsDistinct(role, table);
    forall j | 0 <= j < |items|
      ensures IsActive(SelectItem(shell, items[k]), items[j]) <==> j == k
    {
      if j != k {
        assert ids[j] != ids[k];
      }
    }
  }
}
