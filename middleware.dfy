/**
 * `middleware` of `middleware.ts`: the site-wide password gate. Static
 * assets, a fixed set of public pages and shared-story prefixes pass; other
 * requests pass only with the `site_access=granted` cookie and are otherwise
 * sent to `/unlock`, carrying where they were going in the `next` parameter.
 */
module Middleware {
  import opened Wrappers
  import opened Strings

  /** One `name=value` pair of a URL's query, in order; percent-encoding is not modelled. */
  datatype Param = Param(name: string, value: string)

  /**
   * The parts of `req.nextUrl` and `req.cookies` the gate reads: the path,
   * the raw query string `search` ("" or starting with "?"), the same query
   * as its parameter list, and the `site_access` cookie.
   */
  datatype Request = Request(pathname: string, search: string, params: seq<Param>, siteAccess: Option<string>)

  datatype Decision =
    | Next
    | Redirect(pathname: string, params: seq<Param>)

  const UnlockPath: string := "/unlock"
  const PublicPaths: seq<string> := ["/unlock", "/api/unlock", "/favicon.ico", "/robots.txt", "/sitemap.xml"]
  const PublicPrefixes: seq<string> := ["/s/", "/api/story/by-slug/"]
  const CookieName: string := "site_access"
  const Granted: string := "granted"
  const NextParam: string := "next"

  predicate IsStatic(pathname: string) {
    StartsWith(pathname, "/_next") || StartsWith(pathname, "/static")
  }

  predicate IsPublic(pathname: string) {
    pathname in PublicPaths || exists p :: p in PublicPrefixes && StartsWith(pathname, p)
  }

  /** The names of a parameter list, in order. */
  function Names(ps: seq<Param>): (r: seq<string>)
    ensures |r| == |ps|
    ensures forall i :: 0 <= i < |ps| ==> r[i] == ps[i].name
  {
    seq(|ps|, i requires 0 <= i < |ps| => ps[i].name)
  }

  /** The entries not named `name`, in order. */
  function Without(ps: seq<Param>, name: string): (r: seq<Param>)
    ensures forall q :: q in r <==> q in ps && q.name != name
    ensures |r| <= |ps|
  {
    if ps == [] then []
    else if ps[0].name == name then Without(ps[1..], name)
    else [ps[0]] + Without(ps[1..], name)
  }

  /** `searchParams.get(name)`: the value of the first entry named `name`. */
  function GetParam(ps: seq<Param>, name: string): (r: Option<string>)
    ensures r.None? <==> name !in Names(ps)
    ensures r.Some? ==> Param(name, r.value) in ps
    // the value comes from the first entry with that name
    ensures r.Some? ==> exists k :: 0 <= k < |ps| && ps[k] == Param(name, r.value)
                                    && forall j :: 0 <= j < k ==> ps[j].name != name
  {
    if ps == [] then None
    else if ps[0].name == name then Some(ps[0].value)
    else GetParam(ps[1..], name)
  }

  /**
   * `searchParams.set(name, value)`: the first entry named `name` takes the
   * new value and the later ones are removed; with none, the pair is appended.
   */
  function SetParam(ps: seq<Param>, name: string, value: string): (r: seq<Param>)
    decreases |ps|
  {
    if ps == [] then [Param(name, value)]
    else if ps[0].name == name then [Param(name, value)] + Without(ps[1..], name)
    else [ps[0]] + SetParam(ps[1..], name, value)
  }

  /** The number of entries named `name`. */
  function CountNamed(ps: seq<Param>, name: string): nat {
    if ps == [] then 0
    else (if ps[0].name == name then 1 else 0) + CountNamed(ps[1..], name)
  }

  lemma {:induction false} WithoutCount(ps: seq<Param>, name: string)
    ensures CountNamed(Without(ps, name), name) == 0
    ensures GetParam(Without(ps, name), name).None?
  {
    if ps != [] {
      WithoutCount(ps[1..], name);
      if ps[0].name != name {
        assert Without(ps, name)[1..] == Without(ps[1..], name);
      }
    }
  }

  /**
   * After `set`, exactly one entry carries `name`, `get` returns the new
   * value, and the other entries are kept in their order.
   */
  lemma {:induction false} SetParamSets(ps: seq<Param>, name: string, value: string)
    ensures CountNamed(SetParam(ps, name, value), name) == 1
    ensures GetParam(SetParam(ps, name, value), name) == Some(value)
    ensures Without(SetParam(ps, name, value), name) == Without(ps, name)
    decreases |ps|
  {
    var r := SetParam(ps, name, value);
    if ps == [] {
      assert r[1..] == [];
    } else if ps[0].name == name {
      WithoutCount(ps[1..], name);
      assert r[1..] == Without(ps[1..], name);
      WithoutIdempotent(ps[1..], name);
    } else {
      SetParamSets(ps[1..], name, value);
      assert r[1..] == SetParam(ps[1..], name, value);
    }
  }

  lemma {:induction false} WithoutIdempotent(ps: seq<Param>, name: string)
    ensures Without(Without(ps, name), name) == Without(ps, name)
  {
    if ps != [] {
      WithoutIdempotent(ps[1..], name);
      if ps[0].name != name {
        var w := Without(ps, name);
        assert w[0] == ps[0] && w[1..] == Without(ps[1..], name);
      }
    }
  }

  /** `middleware(req)` */
  function Gate(req: Request): (d: Decision)
    ensures d.Next? <==> IsStatic(req.pathname) || IsPublic(req.pathname) || req.siteAccess == Some(Granted)
    ensures d.Redirect? ==> d.pathname == UnlockPath
    ensures d.Redirect? ==> d.params == SetParam(req.params, NextParam, req.pathname + req.search)
  {
    if IsStatic(req.pathname) then Next
    else if req.pathname in PublicPaths then Next
    else if exists p :: p in PublicPrefixes && StartsWith(req.pathname, p) then Next
    else if req.siteAccess == Some(Granted) then Next
    else Redirect(UnlockPath, SetParam(req.params, NextParam, req.pathname + req.search))
  }

  /**
   * A redirect keeps every other query parameter, and its `next` is the
   * one entry of that name, holding the path and query asked for.
   */
  lemma RedirectCarriesTarget(req: Request)
    requires Gate(req).Redirect?
    ensures GetParam(Gate(req).params, NextParam) == Some(req.pathname + req.search)
    ensures CountNamed(Gate(req).params, NextParam) == 1
    ensures Without(Gate(req).params, NextParam) == Without(req.params, NextParam)
  {
    SetParamSets(req.params, NextParam, req.pathname + req.search);
  }

  /** The page a redirect lands on is itself let through, so the gate never loops. */
  lemma RedirectTargetPasses(req: Request, search: string, cookie: Option<string>)
    requires Gate(req).Redirect?
    ensures Gate(Request(Gate(req).pathname, search, Gate(req).params, cookie)) == Next
  {
    assert UnlockPath in PublicPaths;
  }
}
