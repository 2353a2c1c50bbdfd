/**
 * The login page's submit handler: on success it stores the token and the
 * role, shows a toast and navigates by role; on failure it only shows the
 * server's message, or "Login failed" when there is none.
 */
module LoginScreen {
  import opened Wrappers
  import opened Text
  import opened ClientRoutes
  import Accounts
  import Credentials
  import Routes

  /** What `axios.post('/api/auth/login', form)` settles to, as the handler sees it. */
  datatype LoginReply =
    | Succeeded(token: Option<string>, role: Option<string>)   // `res.data.token`, `res.data.user.role`
    | Failed(message: Option<string>)                          // `err.response?.data?.message`

  datatype Toast = SuccessToast(text: string) | ErrorToast(text: string)

  /** `err.response?.data?.message || 'Login failed'`: a failed login always shows a non-empty message. */
  function FailureText(message: Option<string>): (text: string)
    ensures text != ""
    ensures Truthy(message) ==> text == message.value
    ensures !Truthy(message) ==> text == "Login failed"
  {
    if Truthy(message) then message.value else "Login failed"
  }

  /** The path `navigate` is called with, if any. */
  function Destination(role: Option<string>): (path: Option<string>)
    ensures path.Some? <==> role.Some? && role.value in Accounts.RoleEnum
  {
    if role.Some? then LandingPage(role.value) else None
  }

  /** `localStorage` after the handler: both keys written on success (`setItem` stores `String(value)`), untouched on failure. */
  function StorageAfter(storage: Storage, reply: LoginReply): (s: Storage)
    ensures reply.Failed? ==> s == storage
    ensures reply.Succeeded? ==>
      && s.Keys == storage.Keys + {TokenKey, RoleKey}
      && s[TokenKey] == JsString(reply.token) && s[RoleKey] == JsString(reply.role)
      && forall k :: k in storage && k != TokenKey && k != RoleKey ==> s[k] == storage[k]
  {
    match reply
    case Failed(_) => storage
    case Succeeded(token, role) => storage[TokenKey := JsString(token)][RoleKey := JsString(role)]
  }

  /**
   * How the login route's reply reaches the handler: a 200 session becomes a
   * success carrying the encoded token and the user's role; any other reply
   * becomes a failure carrying the JSON message, if the body has one.
   */
  function ClientReply(r: Routes.Response, encoded: string): (reply: LoginReply)
    ensures reply.Succeeded? <==> r.Reply? && 200 <= r.status < 300 && r.body.Session?
    ensures reply.Succeeded? ==> reply.token == Some(encoded) && (reply.role.Some? && (reply.role.value in Accounts.RoleEnum <==> Accounts.InEnum(r.body.user.role)))
  {
    match r
    case Reply(status, body) =>
      if 200 <= status < 300 && body.Session? then Succeeded(Some(encoded), Some(Accounts.RoleName(body.user.role)))
      else if body.Message? then Failed(Some(body.text))
      else Failed(None)
    case NoReply => Failed(None)
  }

  /**
   * After a successful login with a schema role, the page the handler
   * navigates to renders for the storage it has just written: the landing
   * page admits the role that chose it.
   */
  lemma {:induction false} LoginLandsOnAdmittedPage(storage: Storage, token: string, role: string)
    requires token != "" && role in Accounts.RoleEnum
    ensures var reply := Succeeded(Some(token), Some(role));
      Destination(reply.role).Some? && Resolve(Destination(reply.role).value, StorageAfter(storage, reply)).Render?
  {
    var s := StorageAfter(storage, Succeeded(Some(token), Some(role)));
    assert Get(s, TokenKey) == Some(token);
    LandingPageAdmits(role, s);
  }

  /**
   * The whole round trip from the server: a session for a user whose role is
   * a schema role lands on that role's dashboard, which renders; a role
   * outside the enum is stored but triggers no navigation.
   */
  lemma {:induction false} SessionLandsOnDashboard(storage: Storage, t: Credentials.Token, u: Accounts.User, encoded: string)
    requires encoded != ""
    ensures var reply := ClientReply(Routes.Reply(200, Routes.Session(t, u)), encoded);
      && reply.Succeeded?
      && (Accounts.InEnum(u.role) ==> Destination(reply.role).Some? && Resolve(Destination(reply.role).value, StorageAfter(storage, reply)).Render?)
      && (!Accounts.InEnum(u.role) ==> Destination(reply.role).None?)
  {
    if Accounts.InEnum(u.role) {
      LoginLandsOnAdmittedPage(storage, encoded, Accounts.RoleName(u.role));
    }
  }

  /**
   * A success reply without a role stores the string `undefined`, which no
   * guard lists: every guarded page redirects to `/`, and the handler
   * navigates nowhere.
   */
  lemma {:induction false} UndefinedRoleAdmitsNothing(storage: Storage, token: Option<string>, path: string)
    ensures var s := StorageAfter(storage, Succeeded(token, None));
      && s[RoleKey] == "undefined"
      && Destination(None).None?
      && (Lookup(path).Some? && Lookup(path).value.guard.Some? ==> Resolve(path, s) == Redirect("/"))
  {
    var s := StorageAfter(storage, Succeeded(token, None));
    var found := Lookup(path);
    if found.Some? && found.value.guard.Some? {
      GuardRefusesUndefined(found.value, s);
    }
  }

  lemma GuardRefusesUndefined(e: RouteEntry, s: Storage)
    requires e in Table && e.guard.Some?
    requires RoleKey in s && s[RoleKey] == "undefined"
    ensures Gate(Some(e), s) == Redirect("/")
  {
    GuardsListRoles(e);
  }

  /** The browser state the login page touches. */
  class Browser {
    var storage: Storage
    /** The current path. */
    var location: string
    var toasts: seq<Toast>

    constructor (storage: Storage, location: string)
      ensures this.storage == storage && this.location == location && toasts == []
    {
      this.storage := storage;
      this.location := location;
      toasts := [];
    }

    /** `handleSubmit`, after the request has settled. */
    method HandleSubmit(reply: LoginReply)
      modifies this
      ensures storage == StorageAfter(old(storage), reply)
      ensures reply.Succeeded? ==>
        && toasts == old(toasts) + [SuccessToast("Logged in as " + JsString(reply.role))]
        && location == (if Destination(reply.role).Some? then Destination(reply.role).value else old(location))
      ensures reply.Failed? ==>
        toasts == old(toasts) + [ErrorToast(FailureText(reply.message))] && location == old(location)
    {
      match reply
      case Succeeded(token, role) =>
        storage := storage[TokenKey := JsString(token)];
        storage := storage[RoleKey := JsString(role)];
        toasts := toasts + [SuccessToast("Logged in as " + JsString(role))];
        if role.Some? && role.value == "superAdmin" {
          location := SuperAdminDashboardPath;
        } else if role.Some? && role.value == "trainer" {
          location := TrainerDashboardPath;
        } else if role.Some? && role.value == "student" {
          location := StudentDashboardPath;
        }
      case Failed(message) =>
        toasts := toasts + [ErrorToast(FailureText(message))];
    }
  }
}
