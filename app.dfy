/**
 * `App.tsx`: the session state (`currentUser`, `currentPage`), the permission check
 * and the page dispatch. Page ids are strings because the landing page chosen at
 * login is a permission tag, which need not be a page id.
 */
module App {
  import opened Wrappers
  import opened Lists
  import opened Types
  import Sidebar

  /** What `renderPage` produces. */
  datatype View =
    | LoginView
    | DashboardView
    | InboundView
    | OutboundView
    | InventoryView
    | AdminUsersView
    | AccessDenied   // "Ruxsat yo'q"
    | NotFound       // "Sahifa topilmadi"

  /** `hasPermission`: false when nobody is logged in. */
  predicate HasPermission(user: Option<User>, perm: Permission) {
    user.Some? && perm in user.value.permissions
  }

  /** The page a menu entry leads to. */
  function MenuView(item: Sidebar.MenuItem): View {
    match item.permission
    case Dashboard => DashboardView
    case Kirim => InboundView
    case Chiqim => OutboundView
    case Inventory => InventoryView
    case Admin => AdminUsersView
  }

  /**
   * `renderPage` together with the logged-out branch of the component: the login form
   * without a user, else the page for the id when the user holds its permission, access
   * denied when not, and for an unknown id the dashboard when permitted, else not found.
   */
  function RenderPage(user: Option<User>, page: string): (v: View)
    ensures user.None? <==> v == LoginView
  {
    if user.None? then LoginView
    else if page == "dashboard" then
      if HasPermission(user, Permission.Dashboard) then DashboardView else AccessDenied
    else if page == "kirim" then
      if HasPermission(user, Permission.Kirim) then InboundView else AccessDenied
    else if page == "chiqim" then
      if HasPermission(user, Permission.Chiqim) then OutboundView else AccessDenied
    else if page == "inventory" then
      if HasPermission(user, Permission.Inventory) then InventoryView else AccessDenied
    else if page == "admin_users" then
      if HasPermission(user, Permission.Admin) then AdminUsersView else AccessDenied
    else
      if HasPermission(user, Permission.Dashboard) then DashboardView else NotFound
  }

  /** The page of a menu entry renders exactly when the user holds the permission the menu gates it by. */
  lemma RenderMenuPage(user: User, item: Sidebar.MenuItem)
    requires item in Sidebar.AllMenuItems()
    ensures RenderPage(Some(user), item.id) ==
      if item.permission in user.permissions then MenuView(item) else AccessDenied
  {
    var menu := Sidebar.AllMenuItems();
    if item == menu[0] {
    } else if item == menu[1] {
    } else if item == menu[2] {
    } else if item == menu[3] {
    } else {
      assert item == menu[4];
    }
  }

  /** An id that no menu entry has falls back to the dashboard, or to not found without that permission. */
  lemma RenderUnknownPage(user: User, page: string)
    requires forall item :: item in Sidebar.AllMenuItems() ==> item.id != page
    ensures RenderPage(Some(user), page) ==
      if Permission.Dashboard in user.permissions then DashboardView else NotFound
  {
    var menu := Sidebar.AllMenuItems();
    assert menu[0] in menu && menu[1] in menu && menu[2] in menu && menu[3] in menu && menu[4] in menu;
  }

  /** A menu entry is visible exactly when clicking it renders its page rather than access denied. */
  lemma MenuAgreesWithDispatch(user: User, item: Sidebar.MenuItem)
    requires item in Sidebar.AllMenuItems()
    ensures item in Sidebar.VisibleItems(Some(user)) <==> RenderPage(Some(user), item.id) == MenuView(item)
    ensures item !in Sidebar.VisibleItems(Some(user)) <==> RenderPage(Some(user), item.id) == AccessDenied
  {
    RenderMenuPage(user, item);
    assert MenuView(item) != AccessDenied;
  }

  /**
   * The page `handleLogin` lands on: 'dashboard' when permitted, else the tag of the
   * first permission, else the page is left as it was.
   */
  function LandingPage(user: User, current: string): (page: string)
    ensures Permission.Dashboard in user.permissions ==> page == "dashboard"
    ensures Permission.Dashboard !in user.permissions && |user.permissions| > 0 ==>
      page == Tag(user.permissions[0]) && HasPermission(Some(user), user.permissions[0])
    ensures |user.permissions| == 0 ==> page == current
  {
    if Permission.Dashboard in user.permissions then "dashboard"
    else if |user.permissions| > 0 then Tag(user.permissions[0])
    else current
  }

  /** Unless the first permission is 'admin', a user with any permission lands on a page they may see. */
  lemma LandingPageIsPermitted(user: User, current: string)
    requires Permission.Dashboard in user.permissions || (|user.permissions| > 0 && user.permissions[0] != Permission.Admin)
    ensures RenderPage(Some(user), LandingPage(user, current)) !in {LoginView, AccessDenied, NotFound}
  {
    if Permission.Dashboard !in user.permissions {
      assert user.permissions[0] in user.permissions;
    }
  }

  /**
   * A user whose first permission is 'admin' and who lacks 'dashboard' lands on page id
   * 'admin', which is no page: the default branch renders not found.
   */
  lemma AdminFirstLandsOnNotFound(user: User, current: string)
    requires Permission.Dashboard !in user.permissions
    requires |user.permissions| > 0 && user.permissions[0] == Permission.Admin
    ensures LandingPage(user, current) == "admin"
    ensures RenderPage(Some(user), LandingPage(user, current)) == NotFound
  {
  }

  /** The component's state. */
  class AppState {
    var currentUser: Option<User>
    var currentPage: string

    constructor ()
      ensures currentUser == None && currentPage == "dashboard"
    {
      currentUser, currentPage := None, "dashboard";
    }

    /** `handleLogin`: remember the user and move to the landing page. */
    method HandleLogin(user: User)
      modifies this
      ensures currentUser == Some(user)
      ensures currentPage == LandingPage(user, old(currentPage))
    {
      currentUser := Some(user);
      if Permission.Dashboard in user.permissions {
        currentPage := "dashboard";
      } else if |user.permissions| > 0 {
        currentPage := Tag(user.permissions[0]);
      }
    }

    /** `handleLogout`: forget the user and reset the page; the login form is shown next. */
    method HandleLogout()
      modifies this
      ensures currentUser == None && currentPage == "dashboard"
      ensures RenderPage(currentUser, currentPage) == LoginView
    {
      currentUser := None;
      currentPage := "dashboard";
    }

    /**
     * The sidebar's `setPage(item.id)`: a click on an entry the sidebar shows (an entry of
     * the menu whose permission the user holds, by `Sidebar.VisibleItems`) moves to its page.
     */
    method SelectMenuItem(item: Sidebar.MenuItem)
      requires item in Sidebar.AllMenuItems() && HasPermission(currentUser, item.permission)
      modifies this
      ensures currentUser == old(currentUser) && currentPage == item.id
      ensures RenderPage(currentUser, currentPage) == MenuView(item)
    {
      RenderMenuPage(currentUser.value, item);
      currentPage := item.id;
    }
  }
}
