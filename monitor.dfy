/**
 * The site monitor of monitor.py: one HTTP probe per site that has a
 * `health_check_url`, classified UP, DOWN or ERROR, collected in configured order,
 * and a single alert carrying every result that is not UP.
 */
module Monitor {
  import opened Common

  datatype Status = Up | Down | Error

  /**
   * The dictionary `check_site` returns. A reached URL has a status code and a
   * response time and no error; a probe that raised has an error and neither of
   * the other two (absent keys are None).
   */
  datatype HealthResult = HealthResult(
    site: string,
    url: string,
    status: Status,
    statusCode: Option<int>,
    responseTime: Option<real>,
    error: Option<string>,
    timestamp: string)

  /** The world a monitoring pass sees: what each URL answers, and the `datetime.now()` reading taken for each site. */
  datatype MonitorEnv = MonitorEnv(http: string -> ProbeOutcome, now: string -> string)

  /** `check_site`: no URL means no result; otherwise classify what the probe returned. */
  function CheckSite(site: Site, env: MonitorEnv): (r: Option<HealthResult>)
    ensures r.None? <==> site.healthCheckUrl.None?
    ensures r.Some? ==>
      && r.value.site == site.name && r.value.url == site.healthCheckUrl.value
      && r.value.timestamp == env.now(site.name)
  {
    match site.healthCheckUrl
    case None => None
    case Some(url) =>
      match env.http(url)
      case Responded(code, elapsed) =>
        Some(HealthResult(site.name, url, if code == 200 then Up else Down, Some(code), Some(elapsed), None, env.now(site.name)))
      case ProbeFailed(message) =>
        Some(HealthResult(site.name, url, Error, None, None, Some(message), env.now(site.name)))
  }

  /**
   * A reached URL is UP exactly when it answered 200 and DOWN otherwise, with the
   * code and time kept; a probe that raised is ERROR with its message and no code
   * or time.
   */
  lemma Classification(site: Site, env: MonitorEnv)
    requires site.healthCheckUrl.Some?
    ensures var r := CheckSite(site, env).value;
      var outcome := env.http(site.healthCheckUrl.value);
      && (r.status == Up <==> outcome.Responded? && outcome.statusCode == 200)
      && (outcome.Responded? ==>
            && r.status != Error && r.statusCode == Some(outcome.statusCode)
            && r.responseTime == Some(outcome.elapsedMs) && r.error.None?)
      && (outcome.ProbeFailed? <==> r.status == Error)
      && (outcome.ProbeFailed? ==> r.statusCode.None? && r.responseTime.None? && r.error == Some(outcome.message))
  {
  }

  /** The results `check_all` collects for these sites, in configured order. */
  function Checked(sites: seq<Site>, env: MonitorEnv): seq<HealthResult> {
    if |sites| == 0 then []
    else
      var last := CheckSite(sites[|sites| - 1], env);
      Checked(sites[..|sites| - 1], env) + (if last.Some? then [last.value] else [])
  }

  /** Checking two lists of sites one after the other gives their results one after the other. */
  lemma {:induction false} CheckedAppend(a: seq<Site>, b: seq<Site>, env: MonitorEnv)
    ensures Checked(a + b, env) == Checked(a, env) + Checked(b, env)
  {
    if |b| == 0 {
      assert a + b == a;
    } else {
      var init := b[..|b| - 1];
      assert (a + b)[..|a + b| - 1] == a + init;
      assert (a + b)[|a + b| - 1] == b[|b| - 1];
      CheckedAppend(a, init, env);
    }
  }

  /** One site gives one result when it has a URL and none otherwise. */
  lemma CheckedSingle(site: Site, env: MonitorEnv)
    ensures site.healthCheckUrl.Some? ==> Checked([site], env) == [CheckSite(site, env).value]
    ensures site.healthCheckUrl.None? ==> Checked([site], env) == []
  {
    assert [site][..0] == [];
  }

  /** How many of the sites have a `health_check_url`. */
  function WithUrl(sites: seq<Site>): nat {
    if |sites| == 0 then 0
    else WithUrl(sites[1..]) + if sites[0].healthCheckUrl.Some? then 1 else 0
  }

  /** There is one result per site that has a URL. */
  lemma {:induction false} CheckedCount(sites: seq<Site>, env: MonitorEnv)
    ensures |Checked(sites, env)| == WithUrl(sites)
  {
    if |sites| > 0 {
      assert sites == [sites[0]] + sites[1..];
      CheckedAppend([sites[0]], sites[1..], env);
      CheckedSingle(sites[0], env);
      CheckedCount(sites[1..], env);
    }
  }

  /** `[r for r in results if r['status'] != 'UP']`. */
  function DownSites(results: seq<HealthResult>): (r: seq<HealthResult>)
    ensures |r| <= |results|
  {
    if |results| == 0 then []
    else
      var last := results[|results| - 1];
      DownSites(results[..|results| - 1]) + (if last.status != Up then [last] else [])
  }

  /** A result is listed as down exactly when it is one of the results and is not UP. */
  lemma {:induction false} DownSitesMembers(results: seq<HealthResult>, r: HealthResult)
    ensures r in DownSites(results) <==> r in results && r.status != Up
  {
    if |results| > 0 {
      var init := results[..|results| - 1];
      DownSitesMembers(init, r);
      assert results == init + [results[|results| - 1]];
    }
  }

  /** The filter keeps result order: down sites of two lists are the down sites of each, one after the other. */
  lemma {:induction false} DownSitesAppend(a: seq<HealthResult>, b: seq<HealthResult>)
    ensures DownSites(a + b) == DownSites(a) + DownSites(b)
  {
    if |b| == 0 {
      assert a + b == a;
    } else {
      var init := b[..|b| - 1];
      assert (a + b)[..|a + b| - 1] == a + init;
      assert (a + b)[|a + b| - 1] == b[|b| - 1];
      DownSitesAppend(a, init);
    }
  }

  /** The down list is empty exactly when every result is UP. */
  lemma DownSitesEmpty(results: seq<HealthResult>)
    ensures DownSites(results) == [] <==> forall i :: 0 <= i < |results| ==> results[i].status == Up
  {
    if DownSites(results) != [] {
      DownSitesMembers(results, DownSites(results)[0]);
    }
    if exists i :: 0 <= i < |results| && results[i].status != Up {
      var i :| 0 <= i < |results| && results[i].status != Up;
      DownSitesMembers(results, results[i]);
    }
  }

  /**
   * `check_all`: check every site in order, keep the results that exist, then
   * alert once with the down sites when there are any. `alert` is the argument of
   * the `send_alert` call, or None when it is not called.
   */
  method CheckAll(sites: seq<Site>, env: MonitorEnv) returns (results: seq<HealthResult>, alert: Option<seq<HealthResult>>)
    ensures results == Checked(sites, env)
    ensures alert.Some? <==> exists i :: 0 <= i < |results| && results[i].status != Up
    ensures alert.Some? ==> alert.value == DownSites(results)
  {
    results := [];
    var i := 0;
    while i < |sites|
      invariant 0 <= i <= |sites|
      invariant results == Checked(sites[..i], env)
    {
      var result := CheckSite(sites[i], env);
      assert sites[..i + 1][..i] == sites[..i];
      if result.Some? {
        results := results + [result.value];
      }
      i := i + 1;
    }
    assert sites[..i] == sites;
    var down := DownSites(results);
    DownSitesEmpty(results);
    if |down| > 0 {
      alert := Some(down);
    } else {
      alert := None;
    }
  }
}
