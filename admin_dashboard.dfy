/** The "add administrator" dialog of
    p-1/frontend/src/pages/admin/AdminDashboard.jsx: the four permission
    check boxes, the permission list they produce, and handleCreateAdmin. */
module AdminDashboard {
  import opened Wrappers
  import opened Sorting
  import opened Models
  import opened RecordStore
  import opened Notices
  import opened AdminRoutes

  /** The `adminPermissions` object; its keys are listed in the order
      users, files, charts, analytics. */
  datatype Permissions = Permissions(users: bool, files: bool, charts: bool, analytics: bool)

  const PermissionKeys: seq<string> := ["users", "files", "charts", "analytics"]

  const AllGranted := Permissions(true, true, true, true)

  /** `adminPermissions[key]`; a key the object does not have is undefined,
      which is falsy. */
  function Flag(p: Permissions, key: string): bool {
    if key == "users" then p.users
    else if key == "files" then p.files
    else if key == "charts" then p.charts
    else if key == "analytics" then p.analytics
    else false
  }

  /** The check box for `key` set to `checked`: `{ ...adminPermissions,
      [key]: checked }`. */
  function Toggle(p: Permissions, key: string, checked: bool): (r: Permissions)
    requires key in PermissionKeys
    ensures Flag(r, key) == checked
    ensures forall k :: k in PermissionKeys && k != key ==> Flag(r, k) == Flag(p, k)
  {
    if key == "users" then p.(users := checked)
    else if key == "files" then p.(files := checked)
    else if key == "charts" then p.(charts := checked)
    else p.(analytics := checked)
  }

  function FlagOf(p: Permissions): string -> bool {
    k => Flag(p, k)
  }

  /** `Object.keys(adminPermissions).filter((key) => adminPermissions[key])` */
  function PermissionList(p: Permissions): seq<string> {
    Filter(PermissionKeys, FlagOf(p), true)
  }

  function Granted(flag: bool, key: string): seq<string> {
    if flag then [key] else []
  }

  lemma FlagValues(p: Permissions)
    ensures Flag(p, "users") == p.users && Flag(p, "files") == p.files
    ensures Flag(p, "charts") == p.charts && Flag(p, "analytics") == p.analytics
  {
    assert "files"[0] != "users"[0];
    assert "charts"[0] != "users"[0] && "charts"[0] != "files"[0];
    assert "analytics"[0] != "users"[0] && "analytics"[0] != "files"[0] && "analytics"[0] != "charts"[0];
  }

  /** The list is the ticked keys in key order. */
  lemma {:induction false} PermissionListOrder(p: Permissions)
    ensures PermissionList(p) ==
      Granted(p.users, "users") + Granted(p.files, "files") + Granted(p.charts, "charts") + Granted(p.analytics, "analytics")
  {
    var f := FlagOf(p);
    var keys := PermissionKeys;
    FlagValues(p);
    assert keys[1..][1..][1..][1..] == [];
    assert Filter(keys[1..][1..][1..], f, true) == Granted(p.analytics, "analytics");
    assert Filter(keys[1..][1..], f, true) == Granted(p.charts, "charts") + Granted(p.analytics, "analytics");
    assert Filter(keys[1..], f, true) == Granted(p.files, "files") + Granted(p.charts, "charts") + Granted(p.analytics, "analytics");
  }

  /** The list holds exactly the ticked keys, each once, in key order; all
      ticked gives every key and none ticked gives the empty list. */
  lemma PermissionListSpec(p: Permissions)
    ensures PermissionList(p) ==
      Granted(p.users, "users") + Granted(p.files, "files") + Granted(p.charts, "charts") + Granted(p.analytics, "analytics")
    ensures forall k :: k in PermissionList(p) <==> k in PermissionKeys && Flag(p, k)
    ensures p == AllGranted ==> PermissionList(p) == PermissionKeys
    ensures !p.users && !p.files && !p.charts && !p.analytics ==> PermissionList(p) == []
  {
    PermissionListOrder(p);
    FilterMembers(PermissionKeys, FlagOf(p), true);
  }

  /** An administrator created with the ticked list passes the permission
      check of a route exactly when the route's box was ticked. */
  lemma PermissionListOnRoutes(p: Permissions, route: Route)
    requires RequiredPermission(route).Some?
    ensures RequiredPermission(route).value in PermissionList(p) <==> Flag(p, RequiredPermission(route).value)
  {
    var k := RequiredPermission(route).value;
    assert k in PermissionKeys by {
      match route {
        case Stats => assert k == PermissionKeys[3];
        case ListUsers | UserDetails | DeleteUser => assert k == PermissionKeys[0];
        case ListFiles | DeleteFile => assert k == PermissionKeys[1];
        case ListCharts | DeleteChart | ChartDetails => assert k == PermissionKeys[2];
      }
    }
    FilterMembers(PermissionKeys, FlagOf(p), true);
  }

  /** The body of `adminAPI.createAdmin`. */
  datatype AdminRequest = AdminRequest(name: string, email: string, password: string, permissions: seq<string>)

  const DefaultPassword := "defaultPassword123"

  class AddAdminDialog {
    var showModal: bool
    /** The selected user id; None is the empty selection "". */
    var selectedUser: Option<Id>
    var permissions: Permissions

    constructor ()
      ensures !showModal && selectedUser.None? && permissions == AllGranted
    {
      showModal := false;
      selectedUser := None;
      permissions := AllGranted;
    }

    /** handleCreateAdmin over the loaded `users`; `created` is whether the
        request succeeded. A selection that is not among the users makes
        `user.name` throw, which the handler reports like a failed
        request. */
    method HandleCreateAdmin(users: seq<User>, created: bool) returns (request: Option<AdminRequest>, notice: Notice)
      modifies this
      ensures old(selectedUser).None? ==> notice == Failure("Please select a user")
      ensures request.Some? <==> old(selectedUser).Some? && FindBy(users, UserId, old(selectedUser).value).Some?
      ensures request.Some? ==> (
        var user := FindBy(users, UserId, old(selectedUser).value).value;
        request.value == AdminRequest(user.name, user.email, DefaultPassword, PermissionList(old(permissions))))
      ensures request.Some? && created ==>
        && notice == Success("Admin created successfully")
        && !showModal && selectedUser.None? && permissions == AllGranted
      ensures old(selectedUser).Some? && !(request.Some? && created) ==> notice == Failure("Failed to create admin")
      ensures !(request.Some? && created) ==>
        showModal == old(showModal) && selectedUser == old(selectedUser) && permissions == old(permissions)
    {
      if selectedUser.None? {
        return None, Failure("Please select a user");
      }
      var user := FindBy(users, UserId, selectedUser.value);
      if user.None? {
        return None, Failure("Failed to create admin");
      }
      request := Some(AdminRequest(user.value.name, user.value.email, DefaultPassword, PermissionList(permissions)));
      if !created {
        return request, Failure("Failed to create admin");
      }
      notice := Success("Admin created successfully");
      showModal := false;
      selectedUser := None;
      permissions := AllGranted;
    }

    /** A check box changed. */
    method TogglePermission(key: string, checked: bool)
      requires key in PermissionKeys
      modifies this`permissions
      ensures permissions == Toggle(old(permissions), key, checked)
    {
      permissions := Toggle(permissions, key, checked);
    }
  }
}
