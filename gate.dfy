/**
 * The PIN gate: requests under `/dashboard` without the `mbda_pin_ok=1` cookie are redirected to
 * `/pin?redirect=<path>`; submitting the shared PIN there writes that cookie for eight hours and
 * returns to the page asked for.
 */
module Gate {
  import opened Wrappers
  import opened Text
  import opened UrlQuery

  const DashboardPath: string := "/dashboard"
  const PinPath: string := "/pin"
  const CookieName: string := "mbda_pin_ok"
  const Pin: string := "10102020"
  const InvalidPinMessage: string := "Invalid PIN. Please try again."
  /** `max-age=${60 * 60 * 8}`, in seconds. */
  const CookieMaxAge: nat := 60 * 60 * 8

  /** A cookie the browser holds: its value and the second it expires. */
  datatype StoredCookie = StoredCookie(value: string, expires: nat)

  type Jar = map<string, StoredCookie>

  /** The cookies the browser sends at second `now`: those that have not expired. */
  function Sent(jar: Jar, now: nat): (sent: map<string, string>)
    ensures forall n :: n in sent <==> n in jar && now < jar[n].expires
    ensures forall n :: n in sent ==> sent[n] == jar[n].value
  {
    map n | n in jar && now < jar[n].expires :: jar[n].value
  }

  // ---------------------------------------------------------------------------------------
  // middleware.ts
  // ---------------------------------------------------------------------------------------

  /** `config.matcher: ['/dashboard/:path*']`: the dashboard page and everything below it. */
  predicate Matched(path: string) {
    path == DashboardPath || StartsWith(path, DashboardPath + "/")
  }

  datatype Decision = Next | Redirect(path: string, query: Query)

  /** `middleware(request)`, for a request the matcher lets through. */
  function Middleware(path: string, query: Query, cookies: map<string, string>): (d: Decision)
    ensures d.Next? <==> !StartsWith(path, DashboardPath) || (CookieName in cookies && cookies[CookieName] == "1")
    ensures d.Redirect? ==>
      d.path == PinPath && Get(d.query, "redirect") == Some(path)
      && forall k :: k != "redirect" ==> Get(d.query, k) == Get(query, k)
  {
    if StartsWith(path, DashboardPath) then
      var hasAccess := CookieName in cookies && cookies[CookieName] == "1";
      if !hasAccess then Redirect(PinPath, Set(query, "redirect", path)) else Next
    else Next
  }

  /** What the gate does with any request: paths outside the matcher are not looked at. */
  function Guard(path: string, query: Query, cookies: map<string, string>): (d: Decision)
    ensures !Matched(path) ==> d == Next
    ensures Matched(path) ==> d == Middleware(path, query, cookies)
  {
    if Matched(path) then Middleware(path, query, cookies) else Next
  }

  /** Every matched path is under `/dashboard`, so a matched request without the cookie is always redirected. */
  lemma MatchedIsGuarded(path: string, query: Query, cookies: map<string, string>)
    requires Matched(path)
    ensures Guard(path, query, cookies).Next? <==> CookieName in cookies && cookies[CookieName] == "1"
  {
    if path != DashboardPath {
      assert path[..|DashboardPath|] == (path[..|DashboardPath + "/"|])[..|DashboardPath|];
    }
  }

  // ---------------------------------------------------------------------------------------
  // app/pin/page.tsx
  // ---------------------------------------------------------------------------------------

  /** `params.get('redirect') || '/dashboard'`: a missing or empty target falls back to the dashboard. */
  function RedirectTarget(params: Query): (t: string)
    ensures t != ""
    ensures Get(params, "redirect").Some? && Get(params, "redirect").value != "" ==> t == Get(params, "redirect").value
  {
    var r := Get(params, "redirect");
    if r.Some? && r.value != "" then r.value else DashboardPath
  }

  /** `document.cookie = 'mbda_pin_ok=1; path=/; max-age=28800'` at second `now`. */
  function Unlock(jar: Jar, now: nat): (jar': Jar)
    ensures CookieName in Sent(jar', now) && Sent(jar', now)[CookieName] == "1"
    ensures forall n :: n != CookieName ==> (n in jar' <==> n in jar) && (n in jar ==> jar'[n] == jar[n])
  {
    jar[CookieName := StoredCookie("1", now + CookieMaxAge)]
  }

  datatype Outcome = Unlocked(jar: Jar, target: string) | Rejected

  /** The PIN form: the text typed so far and the error shown under it. */
  class PinForm {
    var value: string
    var error: Option<string>

    constructor()
      ensures value == "" && error == None
    {
      value := "";
      error := None;
    }

    /** `onChange`: the field holds what was typed. */
    method Change(v: string)
      modifies this
      ensures value == v && error == old(error)
    {
      value := v;
    }

    /**
     * `submit`: the shared PIN writes the cookie and navigates to the redirect target; anything
     * else shows the error and stays.
     */
    method Submit(params: Query, jar: Jar, now: nat) returns (outcome: Outcome)
      modifies this
      ensures value == old(value)
      ensures old(value) == Pin ==> error == old(error) && outcome == Unlocked(Unlock(jar, now), RedirectTarget(params))
      ensures old(value) != Pin ==> error == Some(InvalidPinMessage) && outcome == Rejected
    {
      if value == Pin {
        outcome := Unlocked(Unlock(jar, now), RedirectTarget(params));
      } else {
        error := Some(InvalidPinMessage);
        outcome := Rejected;
      }
    }
  }

  // ---------------------------------------------------------------------------------------
  // The round trip
  // ---------------------------------------------------------------------------------------

  /**
   * A locked-out dashboard request is sent to the PIN page, and unlocking there returns to the
   * very path asked for, which the gate then lets through for the next eight hours.
   */
  lemma {:induction false} GateRoundTrip(path: string, query: Query, jar: Jar, now: nat, later: nat)
    requires Matched(path)
    requires !(CookieName in Sent(jar, now) && Sent(jar, now)[CookieName] == "1")
    requires now <= later < now + CookieMaxAge
    ensures var d := Guard(path, query, Sent(jar, now));
      d == Redirect(PinPath, Set(query, "redirect", path))
      && RedirectTarget(d.query) == path
      && Guard(path, query, Sent(Unlock(jar, now), later)) == Next
  {
    MatchedIsGuarded(path, query, Sent(jar, now));
    assert path != "";
    var jar' := Unlock(jar, now);
    assert CookieName in Sent(jar', later) && Sent(jar', later)[CookieName] == "1";
    MatchedIsGuarded(path, query, Sent(jar', later));
  }

  /** Eight hours after unlocking, unless the PIN is entered again, the gate closes. */
  lemma CookieExpires(path: string, query: Query, jar: Jar, now: nat, later: nat)
    requires Matched(path)
    requires later >= now + CookieMaxAge
    ensures Guard(path, query, Sent(Unlock(jar, now), later)).Redirect?
  {
    MatchedIsGuarded(path, query, Sent(Unlock(jar, now), later));
  }
}
