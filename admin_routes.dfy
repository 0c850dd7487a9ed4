/** p-1/backend/routes/admin.routes.js: which middleware guards each admin
    route, the validation of the login body, and the chart route that
    reads any chart by posing as role "admin". */
module AdminRoutes {
  import opened Wrappers
  import opened Models
  import opened RecordStore
  import opened AdminAuth
  import ChartController

  datatype Route =
    | Login | Me | Stats
    | ListUsers | UserDetails | DeleteUser
    | ListFiles | DeleteFile
    | ListCharts | DeleteChart | ChartDetails
    | CreateAdmin | Profile | GetSettings | PutSettings

  /** The permission `checkPermission` demands on a route, if any. */
  function RequiredPermission(route: Route): Option<string> {
    match route
    case Stats => Some("analytics")
    case ListUsers | UserDetails | DeleteUser => Some("users")
    case ListFiles | DeleteFile => Some("files")
    case ListCharts | DeleteChart | ChartDetails => Some("charts")
    case Login | Me | CreateAdmin | Profile | GetSettings | PutSettings => None
  }

  /** What the middleware in front of a handler decides. */
  datatype Access = Open | Allowed(admin: Admin) | Denied(status: nat, message: string)

  /** adminProtect on every route but login, then checkPermission where the
      route names one. */
  function Authorize(route: Route, authorization: Option<string>, verify: string -> Option<Claims>,
                     admins: seq<Admin>): (a: Access)
    ensures a.Open? <==> route == Login
    ensures a.Allowed? ==> (
      && AdminProtect(authorization, verify, admins) == Proceed(a.admin)
      && (RequiredPermission(route).Some? ==> RequiredPermission(route).value in a.admin.permissions))
    ensures a.Denied? && a.status == 403 <==> (
      && route != Login && AdminProtect(authorization, verify, admins).Proceed?
      && RequiredPermission(route).Some?
      && RequiredPermission(route).value !in AdminProtect(authorization, verify, admins).admin.permissions)
    ensures a.Denied? ==> a.status in {401, 403}
  {
    if route == Login then Open
    else match AdminProtect(authorization, verify, admins)
      case Deny(status, message) => Denied(status, message)
      case Proceed(admin) =>
        match RequiredPermission(route)
        case None => Allowed(admin)
        case Some(p) =>
          match CheckPermission(admin, p)
          case Deny(status, message) => Denied(status, message)
          case Proceed(_) => Allowed(admin)
  }

  /** The user, file and chart routes demand the permission named after
      their collection and the statistics route "analytics"; creating an
      administrator, the profile and the settings only need an active
      administrator. */
  lemma PermissionTable(route: Route, authorization: Option<string>, verify: string -> Option<Claims>, admins: seq<Admin>)
    ensures route in {ListUsers, UserDetails, DeleteUser} && Authorize(route, authorization, verify, admins).Allowed?
      ==> "users" in Authorize(route, authorization, verify, admins).admin.permissions
    ensures route in {ListFiles, DeleteFile} && Authorize(route, authorization, verify, admins).Allowed?
      ==> "files" in Authorize(route, authorization, verify, admins).admin.permissions
    ensures route in {ListCharts, DeleteChart, ChartDetails} && Authorize(route, authorization, verify, admins).Allowed?
      ==> "charts" in Authorize(route, authorization, verify, admins).admin.permissions
    ensures route == Stats && Authorize(route, authorization, verify, admins).Allowed?
      ==> "analytics" in Authorize(route, authorization, verify, admins).admin.permissions
    ensures route in {Me, CreateAdmin, Profile, GetSettings, PutSettings} ==>
      (Authorize(route, authorization, verify, admins).Allowed? <==> AdminProtect(authorization, verify, admins).Proceed?)
  {
    match route {
      case ListUsers | UserDetails | DeleteUser => assert RequiredPermission(route) == Some("users");
      case ListFiles | DeleteFile => assert RequiredPermission(route) == Some("files");
      case ListCharts | DeleteChart | ChartDetails => assert RequiredPermission(route) == Some("charts");
      case Stats => assert RequiredPermission(route) == Some("analytics");
      case Me | CreateAdmin | Profile | GetSettings | PutSettings => assert RequiredPermission(route).None?;
      case Login =>
    }
  }

  /** The login validators: a well-formed e-mail (`isEmail` stands for the
      validator library's check; a missing e-mail is checked as "") and a
      password that exists, possibly empty. */
  function LoginErrors(email: Option<string>, password: Option<string>, isEmail: string -> bool): (errors: seq<string>)
    ensures errors == [] <==> isEmail(email.GetOr("")) && password.Some?
    ensures "Password is required" in errors <==> password.None?
    ensures "Please include a valid email" in errors <==> !isEmail(email.GetOr(""))
  {
    (if isEmail(email.GetOr("")) then [] else ["Please include a valid email"])
      + (if password.Some? then [] else ["Password is required"])
  }

  /** GET charts/:id for an administrator: the role is set to "admin" before
      the chart handler runs. */
  function AdminChartDetails(charts: seq<ChartRecord>, users: seq<User>, admin: Admin, id: Id): Reply<ChartRecord> {
    ChartController.GetChart(charts, users, admin.id, "admin", id)
  }

  /** The ownership check never refuses an administrator: the chart comes
      back whenever it exists and its creator can be loaded. */
  lemma AdminSeesEveryChart(charts: seq<ChartRecord>, users: seq<User>, admin: Admin, id: Id)
    ensures AdminChartDetails(charts, users, admin, id).Refused? ==> AdminChartDetails(charts, users, admin, id).status == 404
    ensures FindBy(charts, ChartId, id).Some? && FindBy(charts, ChartId, id).value.createdBy in UserIds(users)
      ==> AdminChartDetails(charts, users, admin, id) == Done(200, FindBy(charts, ChartId, id).value)
  {
  }
}
