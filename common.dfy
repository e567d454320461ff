/**
 * Values shared by the deployment manager, the legacy deployer and the monitor:
 * an optional value, the site descriptor of config.json, the outcome of one HTTP
 * probe, and the "first element that matches" lookup that every by-name site
 * selection uses.
 */
module Common {

  /** Python's `None` or a value. */
  datatype Option<+T> = None | Some(value: T) {
    /** The value, or `default` when there is none (`dict.get(key, default)`). */
    function GetOr(default: T): (r: T)
      ensures Some? ==> r == value
      ensures None? ==> r == default
    {
      match this
      case Some(v) => v
      case None => default
    }
  }

  /**
   * One entry of the `sites` list of config.json, as the deployment manager and the
   * monitor read it. `pre_deploy` and `post_deploy` are empty when the key is absent
   * (an absent list and an empty one run the same commands); `ssh_port` and
   * `health_check_url` are optional keys.
   */
  datatype Site = Site(
    name: string,
    localPath: string,
    remotePath: string,
    deployMethod: string,
    preDeploy: seq<string>,
    postDeploy: seq<string>,
    healthCheckUrl: Option<string>,
    ftpUser: string,
    ftpPass: string,
    ftpHost: string,
    sshUser: string,
    sshHost: string,
    sshPort: Option<string>,
    gitRemote: string,
    gitBranch: string)

  /**
   * What one `requests.get(url, timeout=...)` call produced: a response with its
   * status code and the measured round trip in milliseconds, or a raised exception
   * with its message. The HTTP call itself is outside the model.
   */
  datatype ProbeOutcome = Responded(statusCode: int, elapsedMs: real) | ProbeFailed(message: string)

  /**
   * Index of the first element of `xs` that satisfies `p`, as Python's
   * `next((x for x in xs if p(x)), None)` and `[x for x in xs if p(x)][0]` pick it.
   */
  function FirstWhere<T>(xs: seq<T>, p: T -> bool): (r: Option<nat>)
    ensures r.None? <==> forall i :: 0 <= i < |xs| ==> !p(xs[i])
    ensures r.Some? ==> r.value < |xs| && p(xs[r.value])
    ensures r.Some? ==> forall i :: 0 <= i < r.value ==> !p(xs[i])
  {
    if |xs| == 0 then None
    else if p(xs[0]) then Some(0)
    else
      match FirstWhere(xs[1..], p)
      case None => None
      case Some(k) => Some(k + 1)
  }
}
