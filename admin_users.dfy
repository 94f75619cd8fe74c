/**
 * `pages/AdminUsers.tsx`: the staff list and the form that creates a user. The
 * permission buttons toggle entries of the form's permission list; saving stores a
 * new user under a caller-supplied id and reloads the list.
 */
module AdminUsers {
  import opened Wrappers
  import opened Lists
  import opened Types
  import opened Storage

  /** `prev.filter(p => p !== perm)`: every other permission, in order. */
  function Without(perms: seq<Permission>, perm: Permission): (r: seq<Permission>)
    ensures forall q :: q in r <==> q in perms && q != perm
    ensures forall q :: q != perm ==> multiset(r)[q] == multiset(perms)[q]
    ensures IsSubsequence(r, perms)
    ensures perm !in perms ==> r == perms
  {
    if perms == [] then []
    else
      assert perms == [perms[0]] + perms[1..];
      if perms[0] == perm then Without(perms[1..], perm)
      else [perms[0]] + Without(perms[1..], perm)
  }

  /** `Without` is the list filter that keeps every permission other than `perm`. */
  lemma {:induction false} WithoutIsFilter(perms: seq<Permission>, perm: Permission)
    ensures Without(perms, perm) == Filter(perms, q => q != perm)
  {
    if perms != [] {
      WithoutIsFilter(perms[1..], perm);
    }
  }

  /** Dropping a permission that was just appended leaves the list it was appended to. */
  lemma {:induction false} WithoutAppended(perms: seq<Permission>, perm: Permission)
    requires perm !in perms
    ensures Without(perms + [perm], perm) == perms
  {
    var s := perms + [perm];
    if perms == [] {
      assert s[1..] == [];
    } else {
      WithoutAppended(perms[1..], perm);
      assert s[1..] == perms[1..] + [perm];
    }
  }

  /** `togglePermission`: remove every occurrence if present, else append at the end. */
  function TogglePermission(perms: seq<Permission>, perm: Permission): (r: seq<Permission>)
    ensures perm in r <==> perm !in perms
    ensures forall q :: q != perm ==> (q in r <==> q in perms)
    ensures perm !in perms ==> r == perms + [perm]
    ensures perm in perms ==>
      IsSubsequence(r, perms) && forall q :: q != perm ==> multiset(r)[q] == multiset(perms)[q]
  {
    if perm in perms then Without(perms, perm) else perms + [perm]
  }

  /** Clicking an unselected permission twice gives back the original selection. */
  lemma ToggleTwiceRestores(perms: seq<Permission>, perm: Permission)
    requires perm !in perms
    ensures TogglePermission(TogglePermission(perms, perm), perm) == perms
  {
    WithoutAppended(perms, perm);
  }

  /** The trash button is shown for every user except the one named 'admin'. */
  predicate DeleteOffered(u: User) {
    u.username != "admin"
  }

  /**
   * With unique user ids, the trash button of a listed user removes that user and no one
   * else, and in particular never an 'admin'.
   */
  lemma OfferedDeleteRemovesThatUser(us: seq<User>, u: User)
    requires UniqueKeys(us, UserId) && u in us && DeleteOffered(u)
    ensures var r := UsersAfterDelete(us, u.id);
      && u !in r
      && (forall v :: v in us && v != u ==> v in r)
  {
    var k :| 0 <= k < |us| && us[k] == u;
    IndexOfKeyIs(us, UserId, u.id, k);
    forall v | v in us && v != u
      ensures v.id != u.id
    {
      var j :| 0 <= j < |us| && us[j] == v;
    }
  }

  /**
   * A user that has just been saved can log in with the username and password given, and
   * is the account logged in when no stored user already has those credentials.
   */
  lemma SavedUserCanLogIn(us: seq<User>, u: User)
    ensures FindCredentials(Upsert(us, u, UserId), u.username, u.password).Some?
    ensures (forall v :: v in us ==> !HasCredentials(v, u.username, u.password)) ==>
      FindCredentials(Upsert(us, u, UserId), u.username, u.password) == Some(u)
  {
    var r := Upsert(us, u, UserId);
    var k :| 0 <= k < |r| && r[k] == u;
    assert HasCredentials(r[k], u.username, u.password);
    if forall v :: v in us ==> !HasCredentials(v, u.username, u.password) {
      forall j | 0 <= j < |r| && r[j] != u
        ensures !HasCredentials(r[j], u.username, u.password)
      {
        assert r[j] in us;
      }
    }
  }

  /**
   * Usernames are not checked for uniqueness: a new user who repeats an earlier user's
   * username and password logs in as that earlier user, with that user's permissions.
   */
  lemma RepeatedCredentialsLogInAsEarlierUser()
    ensures var first := User("1", "ali", "pw", "Ali", [Permission.Admin]);
            var second := User("2", "ali", "pw", "Ali Two", [Permission.Dashboard]);
            FindCredentials(Upsert([first], second, UserId), "ali", "pw") == Some(first)
  {
    var first := User("1", "ali", "pw", "Ali", [Permission.Admin]);
    var second := User("2", "ali", "pw", "Ali Two", [Permission.Dashboard]);
    assert Upsert([first], second, UserId) == [first, second];
    assert HasCredentials(first, "ali", "pw");
  }

  /** The page's state: the list shown and the creation form. */
  class AdminUsersPage {
    var users: seq<User>
    var isFormOpen: bool
    var username: string
    var password: string
    var fullName: string
    var selectedPermissions: seq<Permission>

    constructor ()
      ensures users == [] && !isFormOpen
      ensures username == "" && password == "" && fullName == "" && selectedPermissions == [Permission.Dashboard]
    {
      users, isFormOpen := [], false;
      username, password, fullName := "", "", "";
      selectedPermissions := [Permission.Dashboard];
    }

    /** The effect on mount: read the users, which seeds the administrator on first use. */
    method Mount(store: Store)
      modifies this, store
      ensures users == old(store.UserList()) && store.users == users && store.usersInitialised
      ensures store.products == old(store.products) && store.transactions == old(store.transactions)
      ensures old(store.Valid()) ==> store.Valid()
      ensures isFormOpen == old(isFormOpen) && username == old(username) && password == old(password)
      ensures fullName == old(fullName) && selectedPermissions == old(selectedPermissions)
    {
      users := store.GetUsers();
    }

    method SetUsername(text: string)
      modifies this
      ensures username == text
      ensures users == old(users) && isFormOpen == old(isFormOpen) && password == old(password)
      ensures fullName == old(fullName) && selectedPermissions == old(selectedPermissions)
    {
      username := text;
    }

    method SetPassword(text: string)
      modifies this
      ensures password == text
      ensures users == old(users) && isFormOpen == old(isFormOpen) && username == old(username)
      ensures fullName == old(fullName) && selectedPermissions == old(selectedPermissions)
    {
      password := text;
    }

    method SetFullName(text: string)
      modifies this
      ensures fullName == text
      ensures users == old(users) && isFormOpen == old(isFormOpen) && username == old(username)
      ensures password == old(password) && selectedPermissions == old(selectedPermissions)
    {
      fullName := text;
    }

    /** The 'Yangi Xodim' button opens or closes the form without clearing it. */
    method ToggleForm()
      modifies this
      ensures isFormOpen == !old(isFormOpen)
      ensures users == old(users) && username == old(username) && password == old(password)
      ensures fullName == old(fullName) && selectedPermissions == old(selectedPermissions)
    {
      isFormOpen := !isFormOpen;
    }

    /** A permission button. */
    method Toggle(perm: Permission)
      modifies this
      ensures selectedPermissions == TogglePermission(old(selectedPermissions), perm)
      ensures users == old(users) && isFormOpen == old(isFormOpen) && username == old(username)
      ensures password == old(password) && fullName == old(fullName)
    {
      if perm in selectedPermissions {
        selectedPermissions := Without(selectedPermissions, perm);
      } else {
        selectedPermissions := selectedPermissions + [perm];
      }
    }

    /** `resetForm`, also the cancel button: empty fields, 'dashboard' only, form closed. */
    method ResetForm()
      modifies this
      ensures username == "" && password == "" && fullName == "" && selectedPermissions == [Permission.Dashboard]
      ensures !isFormOpen && users == old(users)
    {
      username, password, fullName := "", "", "";
      selectedPermissions := [Permission.Dashboard];
      isFormOpen := false;
    }

    /**
     * `handleSave`: with any of username, password or full name empty nothing happens;
     * otherwise the user built from the form is saved under `newId`, the list is reloaded
     * and the form resets.
     */
    method HandleSave(store: Store, newId: string)
      modifies this, store
      ensures old(username) == "" || old(password) == "" || old(fullName) == "" ==>
        && store.users == old(store.users) && store.usersInitialised == old(store.usersInitialised)
        && users == old(users) && isFormOpen == old(isFormOpen)
        && username == old(username) && password == old(password) && fullName == old(fullName)
        && selectedPermissions == old(selectedPermissions)
      ensures old(username) != "" && old(password) != "" && old(fullName) != "" ==>
        var saved := User(newId, old(username), old(password), old(fullName), old(selectedPermissions));
        && store.users == Upsert(old(store.UserList()), saved, UserId) && store.usersInitialised
        && users == store.users
        && username == "" && password == "" && fullName == ""
        && selectedPermissions == [Permission.Dashboard] && !isFormOpen
      ensures store.products == old(store.products) && store.transactions == old(store.transactions)
      ensures old(store.Valid()) ==> store.Valid()
    {
      if username != "" && password != "" && fullName != "" {
        var newUser := User(newId, username, password, fullName, selectedPermissions);
        store.SaveUser(newUser);
        users := store.GetUsers();
        ResetForm();
      }
    }

    /** `handleDelete` once the confirmation is accepted: delete by id and reload the list. */
    method HandleDelete(store: Store, id: string)
      modifies this, store
      ensures store.users == UsersAfterDelete(old(store.UserList()), id) && store.usersInitialised
      ensures users == store.users
      ensures store.products == old(store.products) && store.transactions == old(store.transactions)
      ensures old(store.Valid()) ==> store.Valid()
      ensures isFormOpen == old(isFormOpen) && username == old(username) && password == old(password)
      ensures fullName == old(fullName) && selectedPermissions == old(selectedPermissions)
    {
      store.DeleteUser(id);
      users := store.GetUsers();
    }
  }
}
