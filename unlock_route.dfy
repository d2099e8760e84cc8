/**
 * `POST /api/unlock` of `app/api/unlock/route.ts`: checks the submitted
 * password against `ACCESS_PASSWORD` and, on a match, sets the cookie the
 * gate in `middleware.ts` lets through and sends the browser back to `next`.
 */
module UnlockRoute {
  import opened Wrappers
  import opened Providers
  import opened Middleware

  /** A `FormData` entry: a text field or an uploaded file. */
  datatype FormValue = FormText(text: string) | FormFile

  /** The parsed form: its `password` entry, if any. */
  datatype Form = Form(password: Option<FormValue>)

  datatype SameSite = Lax | Strict | NoRestriction

  datatype Cookie = Cookie(
    name: string,
    value: string,
    httpOnly: bool,
    secure: bool,
    sameSite: SameSite,
    path: string,
    maxAge: nat)

  /**
   * The route's answer. A redirect's `target` is the `next` text before it is
   * resolved against the request's origin.
   */
  datatype Response =
    | FormRejected
    | NotConfigured
    | Unauthorized
    | RedirectWithCookie(target: string, cookie: Cookie)

  function StatusOf(r: Response): nat {
    match r
    case FormRejected => 500
    case NotConfigured => 500
    case Unauthorized => 401
    case RedirectWithCookie(_, _) => 307
  }

  const WeekSeconds: nat := 60 * 60 * 24 * 7

  /** The cookie a successful unlock sets: seven days, HTTP only, secure, `SameSite=Lax`, whole site. */
  const AccessCookie: Cookie := Cookie(CookieName, Granted, true, true, Lax, "/", WeekSeconds)

  /** `String(form.get('password') || '')`: a missing or empty field is "", a file prints as an object. */
  function Password(field: Option<FormValue>): string {
    match field
    case None => ""
    case Some(FormText(s)) => s
    case Some(FormFile) => "[object File]"
  }

  /** `url.searchParams.get('next') || '/'` */
  function NextTarget(params: seq<Param>): (t: string)
    ensures t != ""
    ensures GetParam(params, NextParam).Some? && GetParam(params, NextParam).value != "" ==>
      t == GetParam(params, NextParam).value
    ensures !(GetParam(params, NextParam).Some? && GetParam(params, NextParam).value != "") ==> t == "/"
  {
    var n := GetParam(params, NextParam);
    if n.Some? && n.value != "" then n.value else "/"
  }

  /**
   * `POST(req)`, for the request's query parameters, its form and the
   * environment. `form` is `None` when `req.formData()` rejects (a body that
   * is not form data); the route does not catch that, so the answer is a 500.
   */
  function Post(params: seq<Param>, form: Option<Form>, env: Env): (r: Response)
    ensures r == FormRejected <==> form.None?
    ensures r == NotConfigured <==> form.Some? && (Lookup(env, "ACCESS_PASSWORD").None? || env["ACCESS_PASSWORD"] == "")
    ensures r == Unauthorized <==>
      form.Some? && "ACCESS_PASSWORD" in env && env["ACCESS_PASSWORD"] != ""
      && Password(form.value.password) != env["ACCESS_PASSWORD"]
    ensures r.RedirectWithCookie? <==>
      form.Some? && "ACCESS_PASSWORD" in env && env["ACCESS_PASSWORD"] != ""
      && Password(form.value.password) == env["ACCESS_PASSWORD"]
    ensures r.RedirectWithCookie? ==> r.cookie == AccessCookie && r.target == NextTarget(params)
  {
    if form.None? then FormRejected
    else
      var secret := Lookup(env, "ACCESS_PASSWORD");
      if secret.None? || secret.value == "" then NotConfigured
      else if Password(form.value.password) != secret.value then Unauthorized
      else RedirectWithCookie(NextTarget(params), AccessCookie)
  }

  /** An empty submitted password never unlocks: a configured password is non-empty. */
  lemma EmptyPasswordRejected(params: seq<Param>, env: Env)
    ensures !Post(params, Some(Form(None)), env).RedirectWithCookie?
    ensures !Post(params, Some(Form(Some(FormText("")))), env).RedirectWithCookie?
  {
  }

  /** With the cookie this route sets, the gate lets every request through. */
  lemma UnlockedPassesGate(params: seq<Param>, form: Option<Form>, env: Env, req: Request)
    requires Post(params, form, env).RedirectWithCookie?
    requires req.siteAccess == Some(Post(params, form, env).cookie.value)
    ensures Gate(req) == Next
  {
  }

  /**
   * A request the gate turned away, once unlocked with the right password,
   * is sent back to the path and query it first asked for.
   */
  lemma UnlockReturnsToTarget(req: Request, env: Env)
    requires Gate(req).Redirect?
    requires "ACCESS_PASSWORD" in env && env["ACCESS_PASSWORD"] != ""
    requires req.pathname + req.search != ""
    ensures Post(Gate(req).params, Some(Form(Some(FormText(env["ACCESS_PASSWORD"])))), env)
      == RedirectWithCookie(req.pathname + req.search, AccessCookie)
  {
    RedirectCarriesTarget(req);
  }
}
