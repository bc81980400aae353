/**
 * src/middleware.ts: the edge decision taken for every matched request. The hostname is
 * resolved to a brand id; a resolved id that differs from the request's brand cookie is
 * written back as a cookie; anything thrown on the way turns into a redirect to `/error`.
 */
module Middleware {
  import opened Wrappers
  import opened JsString
  import opened BrandUtils
  import opened CookieUtils
  import opened DomainUtils

  /** The request as the middleware reads it: its URL, `nextUrl.hostname`, and the `current-brand-id` cookie if sent. */
  datatype Request = Request(url: string, hostname: string, brandCookie: Option<string>)

  /** The options object handed to `response.cookies.set`. */
  datatype CookieOptions = CookieOptions(httpOnly: bool, secure: bool, sameSite: string, maxAge: nat)

  datatype SetCookie = SetCookie(name: string, value: string, options: CookieOptions)

  /** `NextResponse.next()`, optionally carrying one cookie, or `NextResponse.redirect(new URL(path, base))`. */
  datatype Response = Next(setCookie: Option<SetCookie>) | Redirect(path: string, base: string)

  /** The cookie lifetime the middleware writes: 30 days in seconds. */
  const COOKIE_MAX_AGE: nat := 60 * 60 * 24 * 30

  const ERROR_PATH := "/error"

  /** The options the middleware attaches: readable by scripts, lax, 30 days, secure only in production. */
  function BrandCookieOptions(nodeEnv: string): (o: CookieOptions)
    ensures !o.httpOnly && o.sameSite == "lax" && o.maxAge == 2592000
    ensures o.secure <==> nodeEnv == "production"
  {
    CookieOptions(false, nodeEnv == "production", "lax", COOKIE_MAX_AGE)
  }

  /** `handleBrandDetection`: pass the request on, setting the brand cookie when a resolved id differs from the one sent. */
  function HandleBrandDetection(req: Request, nodeEnv: string): (r: Response)
    ensures r.Next?
  {
    match GetBrandIdFromDomain(req.hostname)
    case Some(detected) =>
      if req.brandCookie != Some(detected) then
        Next(Some(SetCookie(BRAND_COOKIE_NAME, detected, BrandCookieOptions(nodeEnv))))
      else Next(None)
    case None => Next(None)
  }

  /**
   * `middleware`: the brand decision inside a `try`. `thrown` stands for an exception raised
   * while deciding, which the `catch` turns into a redirect to `/error` on the request's URL.
   * The decision is always a response object, so the trailing pass-through is never reached.
   */
  function Decide(req: Request, nodeEnv: string, thrown: bool): (r: Response)
    ensures r.Redirect? <==> thrown
    ensures thrown ==> r == Redirect(ERROR_PATH, req.url)
    ensures !thrown ==> r == HandleBrandDetection(req, nodeEnv)
  {
    if thrown then Redirect(ERROR_PATH, req.url)
    else HandleBrandDetection(req, nodeEnv)
  }

  // ---- properties of the decision ------------------------------------------------

  /** A cookie is set exactly when the hostname resolves and the request's cookie does not already hold that id. */
  lemma SetsCookieExactlyWhenNew(req: Request, nodeEnv: string)
    ensures HandleBrandDetection(req, nodeEnv).setCookie.Some? <==>
      GetBrandIdFromDomain(req.hostname).Some? && req.brandCookie != GetBrandIdFromDomain(req.hostname)
    ensures GetBrandIdFromDomain(req.hostname).None? ==> HandleBrandDetection(req, nodeEnv) == Next(None)
  {
  }

  /** The cookie written is `current-brand-id`, holds the resolved (non-empty) id, and carries the fixed options. */
  lemma CookieCarriesResolution(req: Request, nodeEnv: string)
    requires HandleBrandDetection(req, nodeEnv).setCookie.Some?
    ensures var c := HandleBrandDetection(req, nodeEnv).setCookie.value;
      c.name == BRAND_COOKIE_NAME && c.value != "" &&
      Some(c.value) == GetBrandIdFromDomain(req.hostname) &&
      !c.options.httpOnly && c.options.sameSite == "lax" && c.options.maxAge == 2592000 &&
      (c.options.secure <==> nodeEnv == "production")
  {
  }

  /** The server cookie and the client cookie live equally long. */
  lemma LifetimesAgree()
    ensures COOKIE_MAX_AGE == BRAND_COOKIE_MAX_AGE == 2592000
  {
  }

  /** Sending back the cookie just set makes the next decision set none: the decision settles after one round. */
  lemma ReplayIsQuiet(req: Request, nodeEnv: string)
    requires HandleBrandDetection(req, nodeEnv).setCookie.Some?
    ensures var replay := req.(brandCookie := Some(HandleBrandDetection(req, nodeEnv).setCookie.value.value));
      HandleBrandDetection(replay, nodeEnv) == Next(None)
  {
  }

  /** An exact table host with no cookie sets its mapped id. */
  lemma ExactHostSetsCookie(url: string, nodeEnv: string)
    ensures HandleBrandDetection(Request(url, "zumar.local", None), nodeEnv) ==
      Next(Some(SetCookie("current-brand-id", "zumar", BrandCookieOptions(nodeEnv))))
  {
    ExactExample();
  }

  /** The first label of an unregistered host goes into the cookie unchanged, though no brand has that id. */
  lemma UnregisteredLabelSetsCookie(url: string, nodeEnv: string)
    ensures HandleBrandDetection(Request(url, "foo.example.com", None), nodeEnv) ==
      Next(Some(SetCookie("current-brand-id", "foo", BrandCookieOptions(nodeEnv))))
    ensures !IsSelectableId("foo")
  {
    SubdomainExample();
  }

  /**
   * The pair the middleware writes, once stored by the browser as `current-brand-id=<id>`, is
   * read back by the client parser when the id is cookie-safe and the pair is the first brand segment.
   */
  lemma ClientReadsMiddlewareCookie(req: Request, nodeEnv: string, pre: string, pad: string, post: string)
    requires HandleBrandDetection(req, nodeEnv).setCookie.Some?
    requires IsCookieSafeValue(HandleBrandDetection(req, nodeEnv).setCookie.value.value)
    requires pre == "" || (pre[|pre| - 1] == ';' && NoBrandSegment(Split(pre[..|pre| - 1], ';')))
    requires AllWhitespace(pad)
    requires post == "" || post[0] == ';'
    ensures var c := HandleBrandDetection(req, nodeEnv).setCookie.value;
      ParseBrandCookie(pre + pad + (c.name + "=" + c.value) + post) == Some(c.value)
  {
    var c := HandleBrandDetection(req, nodeEnv).setCookie.value;
    ParseFindsBrandPair(pre, pad, c.value, post);
    assert c.name + "=" + c.value == BRAND_COOKIE_PREFIX + c.value;
  }
}
