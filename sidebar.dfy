/**
 * `components/Sidebar.tsx`: the fixed menu table and the permission filter that
 * decides which entries a user sees. Labels and icons are presentation; the model
 * keeps the page id and the permission that gates each entry.
 */
module Sidebar {
  import opened Wrappers
  import opened Lists
  import opened Types

  datatype MenuItem = MenuItem(id: string, title: string, permission: Permission)

  /** The menu in display order. */
  function AllMenuItems(): seq<MenuItem> {
    [ MenuItem("dashboard", "Boshqaruv", Permission.Dashboard),
      MenuItem("kirim", "Kirim (In)", Permission.Kirim),
      MenuItem("chiqim", "Chiqim (Out)", Permission.Chiqim),
      MenuItem("inventory", "Mahsulotlar", Permission.Inventory),
      MenuItem("admin_users", "Admin Panel", Permission.Admin) ]
  }

  /** `user?.permissions || []`. */
  function PermissionsOf(user: Option<User>): seq<Permission> {
    if user.Some? then user.value.permissions else []
  }

  /** `allMenuItems.filter(item => permissions.includes(item.permission))`. */
  function VisibleItems(user: Option<User>): (r: seq<MenuItem>)
    ensures forall item :: item in r <==> item in AllMenuItems() && item.permission in PermissionsOf(user)
    ensures IsSubsequence(r, AllMenuItems())
  {
    var permissions := PermissionsOf(user);
    Filter(AllMenuItems(), (item: MenuItem) => item.permission in permissions)
  }

  /** Logged out, the menu is empty. */
  lemma NoUserNoMenu()
    ensures VisibleItems(None) == []
  {
  }

  /**
   * The entry for the user administration page is gated by 'admin'; every other
   * entry's page id is the tag of the permission that gates it.
   */
  lemma MenuGates()
    ensures forall item :: item in AllMenuItems() ==>
      if item.id == "admin_users" then item.permission == Permission.Admin else item.id == Tag(item.permission)
  {
  }
}
