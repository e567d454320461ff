/**
 * The deployment manager of deploy_manager.py: the command runner, the per-site
 * pipeline (validate, pre-deploy hooks, transfer, post-deploy hooks, advisory
 * health check), the sequential run over every configured site, the summary
 * printed at the end, and the `--site` selection.
 *
 * Everything the manager does to the outside world goes through an oracle in
 * `Env`; the class records it, in order, in its `issued` field.
 */
module Orchestrator {
  import opened Common
  import Text

  /** A command line handed to `subprocess.run(cmd, shell=True, cwd=cwd, ...)`. */
  datatype Invocation = Invocation(command: string, cwd: Option<string>)

  /** What `subprocess.run(..., timeout=300)` did: exited, ran past the timeout, or raised. */
  datatype CommandOutcome =
    | Exited(returnCode: int, stdout: string, stderr: string)
    | TimedOut
    | Raised(message: string)

  /** What `run_command` gives back: captured stdout, or the message of the exception it raises. */
  datatype CommandResult = Output(stdout: string) | CommandError(message: string)

  /** One thing the manager does to the outside world: run a command, or probe a URL. */
  datatype Effect = Shell(invocation: Invocation) | Probe(url: string)

  /**
   * The world a run works against, as fixed oracles: the local paths that exist,
   * what each shell invocation does, what each HTTP probe returns, and the
   * `datetime.now()` readings taken for a site (by site name): the ISO timestamp of
   * its result and the stamp of its git commit message.
   */
  datatype Env = Env(
    localPaths: set<string>,
    shell: Invocation -> CommandOutcome,
    http: string -> ProbeOutcome,
    now: string -> string,
    commitStamp: string -> string)

  /** The record `deploy_site` appends to `results`; the float `time` key is not modelled. */
  datatype DeployResult =
    | Succeeded(site: string, timestamp: string)
    | Failed(site: string, error: string, timestamp: string)
  {
    /** The record's `status` key. */
    function Status(): string {
      if Succeeded? then "success" else "failed"
    }
  }

  /** What `health_check` logs about a probe. */
  datatype HealthLog = SiteUp | StatusWarning(statusCode: int) | ProbeWarning(message: string)

  /** The outcome of a run of commands: the first raised message, if any, and what was issued. */
  datatype Run = Run(error: Option<string>, issued: seq<Effect>)

  const TimeoutMessage: string := "Command timed out"
  const ExecutionErrorPrefix: string := "Command execution error: "

  // ---------------------------------------------------------------------------
  // run_command
  // ---------------------------------------------------------------------------

  /** The command line `run_command` executes: `ssh user@host '<cmd>'` when `remote` and a site are given. */
  function ShellCommand(cmd: string, remote: bool, site: Option<Site>): string {
    if remote && site.Some? then
      "ssh " + site.value.sshUser + "@" + site.value.sshHost + " '" + cmd + "'"
    else
      cmd
  }

  /**
   * `run_command`'s classification of an outcome. The nonzero-exit exception is
   * raised inside the `try`, so the generic handler wraps its message once more;
   * the timeout handler's exception is not caught again.
   */
  function Classify(outcome: CommandOutcome): CommandResult {
    match outcome
    case TimedOut => CommandError(TimeoutMessage)
    case Exited(code, out, err) =>
      if code != 0 then CommandError(ExecutionErrorPrefix + "Command failed: " + err) else Output(out)
    case Raised(message) => CommandError(ExecutionErrorPrefix + message)
  }

  /** The three outcome classes of `run_command`, and the timeout told apart from every other failure. */
  lemma CommandOutcomeClasses(outcome: CommandOutcome)
    ensures Classify(outcome).Output? <==> outcome.Exited? && outcome.returnCode == 0
    ensures Classify(outcome).Output? ==> Classify(outcome).stdout == outcome.stdout
    ensures Classify(outcome) == CommandError(TimeoutMessage) <==> outcome.TimedOut?
    ensures outcome.Exited? && outcome.returnCode != 0 ==>
      Classify(outcome) == CommandError(ExecutionErrorPrefix + "Command failed: " + outcome.stderr)
    ensures outcome.Raised? ==> Classify(outcome) == CommandError(ExecutionErrorPrefix + outcome.message)
    ensures Classify(outcome).CommandError? && !outcome.TimedOut? ==>
      Text.StartsWith(Classify(outcome).message, ExecutionErrorPrefix)
  {
    match outcome
    case TimedOut =>
    case Exited(code, out, err) =>
      if code != 0 {
        assert (ExecutionErrorPrefix + "Command failed: " + err)[..|ExecutionErrorPrefix|] == ExecutionErrorPrefix;
      }
    case Raised(message) =>
      assert (ExecutionErrorPrefix + message)[..|ExecutionErrorPrefix|] == ExecutionErrorPrefix;
  }

  /** The command is rewritten exactly when both `remote` and a site are given, and then kept verbatim between the quotes. */
  lemma RemoteRewrite(cmd: string, remote: bool, site: Option<Site>)
    ensures ShellCommand(cmd, remote, site) != cmd <==> remote && site.Some?
    ensures remote && site.Some? ==>
      var prefix := "ssh " + site.value.sshUser + "@" + site.value.sshHost + " '";
      var r := ShellCommand(cmd, remote, site);
      |r| == |prefix| + |cmd| + 1 && r[..|prefix|] == prefix && r[|prefix|..|r| - 1] == cmd && r[|r| - 1] == '\''
  {
    if remote && site.Some? {
      var prefix := "ssh " + site.value.sshUser + "@" + site.value.sshHost + " '";
      var r := ShellCommand(cmd, remote, site);
      assert r == prefix + cmd + "'";
      assert |r| != |cmd|;
    }
  }

  // ---------------------------------------------------------------------------
  // Running a list of commands in order
  // ---------------------------------------------------------------------------

  /** `run_command` raises for this invocation. */
  predicate Fails(inv: Invocation, shell: Invocation -> CommandOutcome) {
    Classify(shell(inv)).CommandError?
  }

  /** Keeps: `run_command` returns for every one of the invocations. */
  predicate AllPass(invocations: seq<Invocation>, shell: Invocation -> CommandOutcome) {
    forall i :: 0 <= i < |invocations| ==> !Fails(invocations[i], shell)
  }

  /** The shell effects of running these invocations. */
  function Shells(invocations: seq<Invocation>): (r: seq<Effect>)
    ensures |r| == |invocations|
    ensures forall i :: 0 <= i < |r| ==> r[i] == Shell(invocations[i])
  {
    seq(|invocations|, i requires 0 <= i < |invocations| => Shell(invocations[i]))
  }

  /** The invocations `for cmd in cmds: self.run_command(cmd, cwd=..., remote=..., site=...)` issues. */
  function Commands(cmds: seq<string>, cwd: Option<string>, remote: bool, target: Option<Site>): (r: seq<Invocation>)
    ensures |r| == |cmds|
    ensures forall i :: 0 <= i < |cmds| ==> r[i] == Invocation(ShellCommand(cmds[i], remote, target), cwd)
  {
    seq(|cmds|, i requires 0 <= i < |cmds| => Invocation(ShellCommand(cmds[i], remote, target), cwd))
  }

  /** A loop of `run_command` calls over `invocations`, in list order; an exception ends it. */
  function RunInOrder(invocations: seq<Invocation>, shell: Invocation -> CommandOutcome): Run {
    if |invocations| == 0 then Run(None, [])
    else
      match Classify(shell(invocations[0]))
      case CommandError(message) => Run(Some(message), [Shell(invocations[0])])
      case Output(_) =>
        var rest := RunInOrder(invocations[1..], shell);
        Run(rest.error, [Shell(invocations[0])] + rest.issued)
  }

  /**
   * A loop of `run_command` calls issues exactly a prefix of its list: all of it
   * when every command returns, and otherwise everything up to and including the
   * first command that raises, whose message the loop raises.
   */
  lemma {:induction false} RunIssuesPrefix(invocations: seq<Invocation>, shell: Invocation -> CommandOutcome)
    ensures var r := RunInOrder(invocations, shell);
      && |r.issued| <= |invocations|
      && r.issued == Shells(invocations[..|r.issued|])
      && (r.error.None? <==> AllPass(invocations, shell))
      && (r.error.None? ==> |r.issued| == |invocations|)
      && (r.error.Some? ==>
            && |r.issued| > 0
            && Classify(shell(invocations[|r.issued| - 1])) == CommandError(r.error.value)
            && forall i :: 0 <= i < |r.issued| - 1 ==> !Fails(invocations[i], shell))
  {
    if |invocations| > 0 && Classify(shell(invocations[0])).Output? {
      var rest := RunInOrder(invocations[1..], shell);
      RunIssuesPrefix(invocations[1..], shell);
      assert invocations[1..][..|rest.issued|] == invocations[1..|rest.issued| + 1];
      assert forall i :: 1 <= i < |invocations| ==> invocations[i] == invocations[1..][i - 1];
    }
  }

  /** When the `k`-th invocation is the first that raises, the run issues the first `k + 1` and raises its message. */
  lemma {:induction false} RunStopsAtFirstFailure(invocations: seq<Invocation>, shell: Invocation -> CommandOutcome, k: nat)
    requires k < |invocations| && Fails(invocations[k], shell)
    requires forall i :: 0 <= i < k ==> !Fails(invocations[i], shell)
    ensures RunInOrder(invocations, shell) ==
      Run(Some(Classify(shell(invocations[k])).message), Shells(invocations[..k + 1]))
  {
    if k == 0 {
      assert Shells(invocations[..1]) == [Shell(invocations[0])];
    } else {
      var tail := invocations[1..];
      assert !Fails(invocations[0], shell);
      assert tail[k - 1] == invocations[k];
      assert forall i :: 0 <= i < k - 1 ==> tail[i] == invocations[i + 1];
      RunStopsAtFirstFailure(tail, shell, k - 1);
      ShellsCons(invocations[0], tail[..k]);
      assert [invocations[0]] + tail[..k] == invocations[..k + 1];
    }
  }

  /** When every invocation returns, all of them are issued and nothing is raised. */
  lemma {:induction false} RunAllPass(invocations: seq<Invocation>, shell: Invocation -> CommandOutcome)
    requires AllPass(invocations, shell)
    ensures RunInOrder(invocations, shell) == Run(None, Shells(invocations))
  {
    if |invocations| > 0 {
      var tail := invocations[1..];
      assert !Fails(invocations[0], shell);
      assert forall i :: 0 <= i < |tail| ==> tail[i] == invocations[i + 1];
      RunAllPass(tail, shell);
      ShellsCons(invocations[0], tail);
      assert [invocations[0]] + tail == invocations;
    }
  }

  /** A run raises nothing exactly when every one of its invocations returns. */
  lemma {:induction false} RunSucceedsIff(invocations: seq<Invocation>, shell: Invocation -> CommandOutcome)
    ensures RunInOrder(invocations, shell).error.None? <==> AllPass(invocations, shell)
  {
    if |invocations| > 0 {
      var tail := invocations[1..];
      assert forall i :: 0 <= i < |tail| ==> tail[i] == invocations[i + 1];
      RunSucceedsIff(tail, shell);
      if !Fails(invocations[0], shell) && AllPass(tail, shell) {
        forall i | 0 <= i < |invocations| ensures !Fails(invocations[i], shell) {
          if i > 0 { assert invocations[i] == tail[i - 1]; }
        }
      }
    }
  }

  lemma ShellsCons(first: Invocation, rest: seq<Invocation>)
    ensures Shells([first] + rest) == [Shell(first)] + Shells(rest)
  {
    var l, r := Shells([first] + rest), [Shell(first)] + Shells(rest);
    forall i | 0 <= i < |l| ensures l[i] == r[i] {
      if i > 0 { assert ([first] + rest)[i] == rest[i - 1]; }
    }
  }

  // ---------------------------------------------------------------------------
  // Transfers
  // ---------------------------------------------------------------------------

  const FtpOpen: string := "\n        lftp -c \"\n        open -u "
  const FtpLcd: string := "\n        lcd "
  const FtpCd: string := "\n        cd "
  const FtpTail: string := "\n        mirror --reverse --delete --verbose --exclude .git --exclude node_modules\n        bye\n        \"\n        "
  function FtpScript(site: Site): string {
    FtpOpen + site.ftpUser + "," + site.ftpPass + " " + site.ftpHost + FtpLcd + site.localPath + FtpCd + site.remotePath + FtpTail
  }
  const RsyncHead: string := "\n        rsync -avz --delete             --exclude='.git'             --exclude='node_modules'             --exclude='*.log'             -e 'ssh -p "
  const RsyncGap: string := "'             "
  const RsyncGap2: string := "/             "
  const RsyncTail: string := "/\n        "
  function RsyncScript(site: Site): string {
    RsyncHead + site.sshPort.GetOr("22") + RsyncGap + site.localPath + RsyncGap2 + site.sshUser + "@" + site.sshHost + ":" + site.remotePath + RsyncTail
  }

  /** The four commands of `deploy_via_git`, given the stamp of the commit message. */
  function GitCommands(site: Site, stamp: string): (r: seq<string>)
    ensures |r| == 4
  {
    [ "cd " + site.localPath,
      "git add .",
      "git commit -m 'Deploy: " + stamp + "'",
      "git push " + site.gitRemote + " " + site.gitBranch ]
  }

  /** The transfer methods `deploy_site` knows. */
  predicate KnownMethod(deployMethod: string) {
    deployMethod == "ftp" || deployMethod == "ssh" || deployMethod == "git"
  }

  /** The invocations of the transfer `deploy_method` selects, or None for an unknown method. */
  function Transfer(site: Site, env: Env): (r: Option<seq<Invocation>>)
    ensures r.None? <==> !KnownMethod(site.deployMethod)
  {
    if site.deployMethod == "ftp" then Some([Invocation(FtpScript(site), None)])
    else if site.deployMethod == "ssh" then Some([Invocation(RsyncScript(site), None)])
    else if site.deployMethod == "git" then
      Some(Commands(GitCommands(site, env.commitStamp(site.name)), Some(site.localPath), false, None))
    else None
  }

  /** The transfer step of `deploy_site`: the selected transfer, or the unknown-method exception. */
  function TransferRun(site: Site, env: Env): Run {
    match Transfer(site, env)
    case None => Run(Some(UnknownMethodMessage(site)), [])
    case Some(transfer) => RunInOrder(transfer, env.shell)
  }

  /** Pre-deploy hooks run locally, in the site's local path. */
  function PreDeploy(site: Site): seq<Invocation> {
    Commands(site.preDeploy, Some(site.localPath), false, None)
  }

  /** Post-deploy hooks run on the site's host over ssh. */
  function PostDeploy(site: Site): seq<Invocation> {
    Commands(site.postDeploy, None, true, Some(site))
  }

  /** The probe of the health check, when the site has a `health_check_url`. */
  function HealthProbe(site: Site): seq<Effect> {
    if site.healthCheckUrl.Some? then [Probe(site.healthCheckUrl.value)] else []
  }

  /** The message `deploy_site` raises when `local_path` does not exist. */
  function MissingPathMessage(site: Site): string {
    "Local path not found: " + site.localPath
  }

  /** The message `deploy_site` raises for a `deploy_method` it does not know. */
  function UnknownMethodMessage(site: Site): string {
    "Unknown deploy method: " + site.deployMethod
  }

  // ---------------------------------------------------------------------------
  // One site
  // ---------------------------------------------------------------------------

  /** What `health_check` logs for a probe outcome; it catches every exception, so it never raises. */
  function HealthVerdict(outcome: ProbeOutcome): (r: HealthLog)
    ensures r == SiteUp <==> outcome.Responded? && outcome.statusCode == 200
    ensures outcome.ProbeFailed? ==> r == ProbeWarning(outcome.message)
  {
    match outcome
    case Responded(code, _) => if code == 200 then SiteUp else StatusWarning(code)
    case ProbeFailed(message) => ProbeWarning(message)
  }

  /** Two steps inside one `try`: the second runs only when the first raised nothing. */
  function Then(first: Run, next: Run): Run {
    if first.error.Some? then first else Run(next.error, first.issued + next.issued)
  }

  /** The pre-deploy, transfer and post-deploy steps and the probe of one `try` block, each skipped once one raised. */
  function AttemptStages(pre: Run, moved: Run, post: Run, probe: seq<Effect>): Run {
    Then(Then(Then(pre, moved), post), Run(None, probe))
  }

  /**
   * The `try` block of `deploy_site`: the exception it ends with, if any, and
   * everything it issued. The steps run strictly in order and the first raised
   * exception skips all later ones; the health check never raises.
   */
  function Attempt(site: Site, env: Env): Run {
    if site.localPath !in env.localPaths then
      Run(Some(MissingPathMessage(site)), [])
    else
      AttemptStages(RunInOrder(PreDeploy(site), env.shell), TransferRun(site, env),
                    RunInOrder(PostDeploy(site), env.shell), HealthProbe(site))
  }

  /** The record `deploy_site` appends and returns. */
  function ResultOf(site: Site, env: Env): (r: DeployResult)
    ensures r.site == site.name && r.timestamp == env.now(site.name)
    ensures r.Status() == "success" || r.Status() == "failed"
  {
    match Attempt(site, env).error
    case None => Succeeded(site.name, env.now(site.name))
    case Some(message) => Failed(site.name, message, env.now(site.name))
  }

  /** A missing local path fails the site at once: nothing is run, transferred or probed. */
  lemma MissingLocalPath(site: Site, env: Env)
    requires site.localPath !in env.localPaths
    ensures ResultOf(site, env) == Failed(site.name, "Local path not found: " + site.localPath, env.now(site.name))
    ensures Attempt(site, env).issued == []
  {
  }

  /** The first pre-deploy hook that fails ends the site: later hooks, the transfer, post-deploy and the probe never run. */
  lemma PreDeployFailureStops(site: Site, env: Env, k: nat)
    requires site.localPath in env.localPaths
    requires k < |site.preDeploy| && Fails(PreDeploy(site)[k], env.shell)
    requires forall i :: 0 <= i < k ==> !Fails(PreDeploy(site)[i], env.shell)
    ensures ResultOf(site, env) ==
      Failed(site.name, Classify(env.shell(PreDeploy(site)[k])).message, env.now(site.name))
    ensures Attempt(site, env).issued == Shells(PreDeploy(site)[..k + 1])
  {
    RunStopsAtFirstFailure(PreDeploy(site), env.shell, k);
  }

  /** An unknown `deploy_method` fails the site after all pre-deploy hooks ran, and nothing after them is issued. */
  lemma UnknownMethodFails(site: Site, env: Env)
    requires site.localPath in env.localPaths
    requires AllPass(PreDeploy(site), env.shell)
    requires !KnownMethod(site.deployMethod)
    ensures ResultOf(site, env) == Failed(site.name, "Unknown deploy method: " + site.deployMethod, env.now(site.name))
    ensures Attempt(site, env).issued == Shells(PreDeploy(site))
  {
    RunAllPass(PreDeploy(site), env.shell);
  }

  /** A site succeeds exactly when validation, every pre-deploy hook, the transfer and every post-deploy hook passed. */
  lemma SuccessIff(site: Site, env: Env)
    ensures ResultOf(site, env).Succeeded? <==>
      && site.localPath in env.localPaths
      && AllPass(PreDeploy(site), env.shell)
      && Transfer(site, env).Some? && AllPass(Transfer(site, env).value, env.shell)
      && AllPass(PostDeploy(site), env.shell)
  {
    if site.localPath in env.localPaths {
      var pre, moved, post := RunInOrder(PreDeploy(site), env.shell), TransferRun(site, env),
        RunInOrder(PostDeploy(site), env.shell);
      assert Attempt(site, env) == AttemptStages(pre, moved, post, HealthProbe(site));
      RunSucceedsIff(PreDeploy(site), env.shell);
      RunSucceedsIff(PostDeploy(site), env.shell);
      if Transfer(site, env).Some? {
        RunSucceedsIff(Transfer(site, env).value, env.shell);
      }
    }
  }

  /** The health check is advisory: whatever the probe returns, the site's result is the same. */
  lemma HealthCheckIsAdvisory(site: Site, env: Env, http: string -> ProbeOutcome)
    ensures ResultOf(site, env.(http := http)) == ResultOf(site, env)
    ensures Attempt(site, env.(http := http)) == Attempt(site, env)
  {
    var other := env.(http := http);
    assert other.shell == env.shell && other.localPaths == env.localPaths;
    assert other.commitStamp == env.commitStamp && other.now == env.now;
    assert TransferRun(site, other) == TransferRun(site, env);
  }

  /** A successful site issued its hooks and transfer in order, then probed the health-check URL last, if it has one. */
  lemma SuccessIssuesEverything(site: Site, env: Env)
    requires ResultOf(site, env).Succeeded?
    ensures Attempt(site, env).issued ==
      Shells(PreDeploy(site)) + Shells(Transfer(site, env).value) + Shells(PostDeploy(site)) + HealthProbe(site)
  {
    SuccessIff(site, env);
    var transfer := Transfer(site, env).value;
    var pre, moved, post := RunInOrder(PreDeploy(site), env.shell), RunInOrder(transfer, env.shell),
      RunInOrder(PostDeploy(site), env.shell);
    assert Attempt(site, env) == AttemptStages(pre, moved, post, HealthProbe(site));
    RunAllPass(PreDeploy(site), env.shell);
    RunAllPass(transfer, env.shell);
    RunAllPass(PostDeploy(site), env.shell);
  }

  /** The git transfer is cd, add, commit and push, in that order, each run in the local path. */
  lemma GitTransferShape(site: Site, env: Env)
    requires site.deployMethod == "git"
    ensures var git := Transfer(site, env).value;
      && |git| == 4
      && git[0].command == "cd " + site.localPath
      && git[1].command == "git add ."
      && Text.StartsWith(git[2].command, "git commit -m 'Deploy: ")
      && git[3].command == "git push " + site.gitRemote + " " + site.gitBranch
      && (forall i :: 0 <= i < 4 ==> git[i].cwd == Some(site.localPath))
  {
    var stamp := env.commitStamp(site.name);
    assert ("git commit -m 'Deploy: " + stamp + "'")[..|"git commit -m 'Deploy: "|] == "git commit -m 'Deploy: ";
  }

  /** Git deployment runs cd, add, commit and push in that order in the local path; the first failure stops the rest. */
  lemma GitFailureStops(site: Site, env: Env, k: nat)
    requires site.deployMethod == "git"
    requires k < 4
    requires var git := Transfer(site, env).value;
      Fails(git[k], env.shell) && forall i :: 0 <= i < k ==> !Fails(git[i], env.shell)
    ensures var git := Transfer(site, env).value;
      && |git| == 4
      && git[0].command == "cd " + site.localPath
      && git[1].command == "git add ."
      && Text.StartsWith(git[2].command, "git commit -m 'Deploy: ")
      && git[3].command == "git push " + site.gitRemote + " " + site.gitBranch
      && (forall i :: 0 <= i < 4 ==> git[i].cwd == Some(site.localPath))
      && TransferRun(site, env) == Run(Some(Classify(env.shell(git[k])).message), Shells(git[..k + 1]))
  {
    GitTransferShape(site, env);
    RunStopsAtFirstFailure(Transfer(site, env).value, env.shell, k);
  }

  // ---------------------------------------------------------------------------
  // The whole run
  // ---------------------------------------------------------------------------

  /** The results the sequential `deploy_all` appends, site after site. */
  function ResultsOf(sites: seq<Site>, env: Env): (r: seq<DeployResult>)
    ensures |r| == |sites|
  {
    if |sites| == 0 then []
    else ResultsOf(sites[..|sites| - 1], env) + [ResultOf(sites[|sites| - 1], env)]
  }

  /** The run's results are one per configured site, in configured order, each naming its site. */
  lemma {:induction false} ResultsInSiteOrder(sites: seq<Site>, env: Env, i: nat)
    requires i < |sites|
    ensures ResultsOf(sites, env)[i] == ResultOf(sites[i], env)
    ensures ResultsOf(sites, env)[i].site == sites[i].name
  {
    var n := |sites|;
    if i < n - 1 {
      ResultsInSiteOrder(sites[..n - 1], env, i);
    }
  }

  /** Everything the sequential `deploy_all` issues, site after site. */
  function IssuedBy(sites: seq<Site>, env: Env): seq<Effect> {
    if |sites| == 0 then []
    else IssuedBy(sites[..|sites| - 1], env) + Attempt(sites[|sites| - 1], env).issued
  }

  /** What `print_summary` reports: the success and failure counts and the failed sites with their errors. */
  datatype Summary = Summary(succeeded: nat, failed: nat, failures: seq<(string, string)>)

  /** `sum(1 for r in results if r['status'] == status)`. */
  function CountStatus(results: seq<DeployResult>, status: string): nat {
    if |results| == 0 then 0
    else (if results[0].Status() == status then 1 else 0) + CountStatus(results[1..], status)
  }

  /** The `(site, error)` lines printed under "Failed sites", in result order. */
  function FailedSites(results: seq<DeployResult>): seq<(string, string)> {
    if |results| == 0 then []
    else (if results[0].Failed? then [(results[0].site, results[0].error)] else []) + FailedSites(results[1..])
  }

  /** `print_summary`'s figures for a result list. */
  function Summarize(results: seq<DeployResult>): Summary {
    Summary(CountStatus(results, "success"), CountStatus(results, "failed"), FailedSites(results))
  }

  /** Every result is counted exactly once, and one failure line is printed per failed result. */
  lemma {:induction false} SummaryAddsUp(results: seq<DeployResult>)
    ensures Summarize(results).succeeded + Summarize(results).failed == |results|
    ensures |Summarize(results).failures| == Summarize(results).failed
  {
    if |results| > 0 {
      SummaryAddsUp(results[1..]);
    }
  }

  /** The summary of two runs one after the other is the sum of their summaries; failures keep result order. */
  lemma {:induction false} SummarizeAppend(a: seq<DeployResult>, b: seq<DeployResult>)
    ensures Summarize(a + b) == Summary(
      Summarize(a).succeeded + Summarize(b).succeeded,
      Summarize(a).failed + Summarize(b).failed,
      Summarize(a).failures + Summarize(b).failures)
  {
    if |a| > 0 {
      assert (a + b)[1..] == a[1..] + b;
      SummarizeAppend(a[1..], b);
    } else {
      assert a + b == b;
    }
  }

  /** A failure line is printed exactly for each failed result. */
  lemma {:induction false} FailedSitesExactly(results: seq<DeployResult>, site: string, error: string)
    ensures (site, error) in FailedSites(results) <==>
      exists i :: 0 <= i < |results| && results[i].Failed? && results[i].site == site && results[i].error == error
  {
    if |results| > 0 {
      FailedSitesExactly(results[1..], site, error);
      if (site, error) in FailedSites(results[1..]) {
        var i :| 0 <= i < |results[1..]| && results[1..][i].Failed? && results[1..][i].site == site && results[1..][i].error == error;
        assert results[i + 1] == results[1..][i];
      }
      if exists i :: 0 <= i < |results| && results[i].Failed? && results[i].site == site && results[i].error == error {
        var i :| 0 <= i < |results| && results[i].Failed? && results[i].site == site && results[i].error == error;
        if i > 0 {
          assert results[1..][i - 1] == results[i];
        }
      }
    }
  }

  /** `--site NAME`: the index of the first configured site with that name, if any. */
  function SelectSite(sites: seq<Site>, name: string): (r: Option<nat>)
    ensures r.None? <==> forall i :: 0 <= i < |sites| ==> sites[i].name != name
    ensures r.Some? ==> r.value < |sites| && sites[r.value].name == name
    ensures r.Some? ==> forall i :: 0 <= i < r.value ==> sites[i].name != name
  {
    FirstWhere(sites, (s: Site) => s.name == name)
  }

  // ---------------------------------------------------------------------------
  // The manager
  // ---------------------------------------------------------------------------

  class DeploymentManager {
    /** `self.config['sites']`, loaded once. */
    const sites: seq<Site>
    /** `self.results`: one record per attempted site, in the order they finished. */
    var results: seq<DeployResult>
    /** The commands handed to the shell and the URLs probed so far, in order. */
    var issued: seq<Effect>

    constructor (sites: seq<Site>)
      ensures this.sites == sites && results == [] && issued == []
    {
      this.sites := sites;
      results := [];
      issued := [];
    }

    /** `run_command`: issue the (possibly rewritten) command and classify what it did. */
    method RunCommand(cmd: string, cwd: Option<string>, remote: bool, site: Option<Site>, env: Env)
      returns (r: CommandResult)
      modifies this`issued
      ensures issued == old(issued) + [Shell(Invocation(ShellCommand(cmd, remote, site), cwd))]
      ensures r == Classify(env.shell(Invocation(ShellCommand(cmd, remote, site), cwd)))
    {
      var inv := Invocation(ShellCommand(cmd, remote, site), cwd);
      issued := issued + [Shell(inv)];
      r := Classify(env.shell(inv));
    }

    /** `for cmd in cmds: self.run_command(cmd, ...)`: stop at the first command that raises. */
    method RunCommands(cmds: seq<string>, cwd: Option<string>, remote: bool, target: Option<Site>, env: Env)
      returns (error: Option<string>)
      modifies this`issued
      ensures error == RunInOrder(Commands(cmds, cwd, remote, target), env.shell).error
      ensures issued == old(issued) + RunInOrder(Commands(cmds, cwd, remote, target), env.shell).issued
    {
      ghost var invs := Commands(cmds, cwd, remote, target);
      error := None;
      var i := 0;
      while i < |cmds| && error.None?
        invariant 0 <= i <= |cmds|
        invariant issued == old(issued) + Shells(invs[..i])
        invariant error.None? ==> forall k :: 0 <= k < i ==> !Fails(invs[k], env.shell)
        invariant error.Some? ==> i > 0 && Classify(env.shell(invs[i - 1])) == CommandError(error.value)
        invariant error.Some? ==> forall k :: 0 <= k < i - 1 ==> !Fails(invs[k], env.shell)
      {
        var r := RunCommand(cmds[i], cwd, remote, target, env);
        assert Shells(invs[..i + 1]) == Shells(invs[..i]) + [Shell(invs[i])];
        if r.CommandError? {
          error := Some(r.message);
        }
        i := i + 1;
      }
      if error.None? {
        assert invs[..i] == invs;
        RunAllPass(invs, env.shell);
      } else {
        RunStopsAtFirstFailure(invs, env.shell, i - 1);
      }
    }

    /** `deploy_via_ftp`: one lftp invocation. */
    method DeployViaFtp(site: Site, env: Env) returns (error: Option<string>)
      modifies this`issued
      ensures error == RunInOrder([Invocation(FtpScript(site), None)], env.shell).error
      ensures issued == old(issued) + RunInOrder([Invocation(FtpScript(site), None)], env.shell).issued
    {
      var r := RunCommand(FtpScript(site), None, false, None, env);
      error := if r.CommandError? then Some(r.message) else None;
    }

    /** `deploy_via_ssh`: one rsync invocation. */
    method DeployViaSsh(site: Site, env: Env) returns (error: Option<string>)
      modifies this`issued
      ensures error == RunInOrder([Invocation(RsyncScript(site), None)], env.shell).error
      ensures issued == old(issued) + RunInOrder([Invocation(RsyncScript(site), None)], env.shell).issued
    {
      var r := RunCommand(RsyncScript(site), None, false, None, env);
      error := if r.CommandError? then Some(r.message) else None;
    }

    /** `deploy_via_git`: cd, add, commit, push, in the local path, stopping at the first failure. */
    method DeployViaGit(site: Site, env: Env) returns (error: Option<string>)
      modifies this`issued
      ensures var git := Commands(GitCommands(site, env.commitStamp(site.name)), Some(site.localPath), false, None);
        error == RunInOrder(git, env.shell).error && issued == old(issued) + RunInOrder(git, env.shell).issued
    {
      var commands := GitCommands(site, env.commitStamp(site.name));
      error := RunCommands(commands, Some(site.localPath), false, None, env);
    }

    /** The `if/elif/else` on `deploy_method` in `deploy_site`. */
    method Dispatch(site: Site, env: Env) returns (error: Option<string>)
      modifies this`issued
      ensures error == TransferRun(site, env).error
      ensures issued == old(issued) + TransferRun(site, env).issued
    {
      if site.deployMethod == "ftp" {
        error := DeployViaFtp(site, env);
      } else if site.deployMethod == "ssh" {
        error := DeployViaSsh(site, env);
      } else if site.deployMethod == "git" {
        error := DeployViaGit(site, env);
      } else {
        error := Some(UnknownMethodMessage(site));
      }
    }

    /** `health_check`: probe the URL and log; never raises. */
    method HealthCheck(url: string, env: Env) returns (verdict: HealthLog)
      modifies this`issued
      ensures issued == old(issued) + [Probe(url)]
      ensures verdict == HealthVerdict(env.http(url))
    {
      issued := issued + [Probe(url)];
      verdict := HealthVerdict(env.http(url));
    }

    /** `deploy_site`: run the pipeline, turn the first exception into a failed record, append exactly one record. */
    method DeploySite(site: Site, env: Env) returns (r: DeployResult)
      modifies this`results, this`issued
      ensures r == ResultOf(site, env)
      ensures results == old(results) + [r]
      ensures issued == old(issued) + Attempt(site, env).issued
    {
      var error: Option<string>;
      if site.localPath !in env.localPaths {
        error := Some(MissingPathMessage(site));
      } else {
        ghost var pre := RunInOrder(PreDeploy(site), env.shell);
        ghost var moved := TransferRun(site, env);
        ghost var post := RunInOrder(PostDeploy(site), env.shell);
        ghost var attempt := Attempt(site, env);
        assert attempt == AttemptStages(pre, moved, post, HealthProbe(site));
        error := RunCommands(site.preDeploy, Some(site.localPath), false, None, env);
        if error.None? {
          error := Dispatch(site, env);
          if error.None? {
            error := RunCommands(site.postDeploy, None, true, Some(site), env);
            if error.None? {
              if site.healthCheckUrl.Some? {
                var _ := HealthCheck(site.healthCheckUrl.value, env);
              }
              assert attempt == Run(None, pre.issued + moved.issued + post.issued + HealthProbe(site));
              assert issued == old(issued) + pre.issued + moved.issued + post.issued + HealthProbe(site);
              ConcatAssoc(old(issued), pre.issued, moved.issued, post.issued, HealthProbe(site));
            } else {
              assert attempt == Run(post.error, pre.issued + moved.issued + post.issued);
              ConcatAssoc(old(issued), pre.issued, moved.issued, post.issued, []);
            }
          } else {
            assert attempt == Run(moved.error, pre.issued + moved.issued);
            ConcatAssoc(old(issued), pre.issued, moved.issued, [], []);
          }
        } else {
          assert attempt == pre;
        }
      }
      r := if error.None? then Succeeded(site.name, env.now(site.name))
           else Failed(site.name, error.value, env.now(site.name));
      results := results + [r];
    }

    /**
     * The sequential `deploy_all`: every site is attempted in configured order, no
     * failure stops the run; then `print_summary`'s figures over all results.
     */
    method DeployAll(env: Env) returns (summary: Summary)
      modifies this`results, this`issued
      ensures results == old(results) + ResultsOf(sites, env)
      ensures issued == old(issued) + IssuedBy(sites, env)
      ensures summary == Summarize(results)
    {
      var i := 0;
      while i < |sites|
        invariant 0 <= i <= |sites|
        invariant results == old(results) + ResultsOf(sites[..i], env)
        invariant issued == old(issued) + IssuedBy(sites[..i], env)
      {
        var r := DeploySite(sites[i], env);
        ResultsOfSnoc(sites, i, env);
        AppendAssoc(old(results), ResultsOf(sites[..i], env), [r]);
        AppendAssoc(old(issued), IssuedBy(sites[..i], env), Attempt(sites[i], env).issued);
        i := i + 1;
      }
      assert sites[..i] == sites;
      summary := Summarize(results);
    }

    /**
     * `main` without `--dry-run`: no `--site` (or an empty one) deploys every site;
     * otherwise the first site with that name is deployed, and an unknown name
     * deploys nothing and exits with status 1 (`found` is false).
     */
    method DeployRequested(requested: Option<string>, env: Env) returns (found: bool)
      modifies this`results, this`issued
      ensures requested.None? || requested.value == "" ==>
        found && results == old(results) + ResultsOf(sites, env) && issued == old(issued) + IssuedBy(sites, env)
      ensures requested.Some? && requested.value != "" ==>
        match SelectSite(sites, requested.value)
        case None => !found && results == old(results) && issued == old(issued)
        case Some(i) => found && results == old(results) + [ResultOf(sites[i], env)]
                        && issued == old(issued) + Attempt(sites[i], env).issued
    {
      if requested.None? || requested.value == "" {
        var _ := DeployAll(env);
        found := true;
      } else {
        match SelectSite(sites, requested.value)
        case None =>
          found := false;
        case Some(i) =>
          var _ := DeploySite(sites[i], env);
          found := true;
      }
    }
  }

  lemma AppendAssoc<T>(a: seq<T>, b: seq<T>, c: seq<T>)
    ensures a + (b + c) == a + b + c
  {
  }

  lemma ConcatAssoc<T>(a: seq<T>, b: seq<T>, c: seq<T>, d: seq<T>, e: seq<T>)
    ensures a + (b + c + d + e) == a + b + c + d + e
    ensures a + (b + c + d) == a + b + c + d
    ensures a + (b + c) == a + b + c
  {
  }

  /** One more site extends the run's results and effects by that site's. */
  lemma ResultsOfSnoc(sites: seq<Site>, i: nat, env: Env)
    requires i < |sites|
    ensures ResultsOf(sites[..i + 1], env) == ResultsOf(sites[..i], env) + [ResultOf(sites[i], env)]
    ensures IssuedBy(sites[..i + 1], env) == IssuedBy(sites[..i], env) + Attempt(sites[i], env).issued
  {
    assert sites[..i + 1][..i] == sites[..i];
  }

  /** A run from an empty result list accounts for every configured site: successes plus failures is the site count. */
  lemma EverySiteCounted(sites: seq<Site>, env: Env)
    ensures Summarize(ResultsOf(sites, env)).succeeded + Summarize(ResultsOf(sites, env)).failed == |sites|
  {
    SummaryAddsUp(ResultsOf(sites, env));
  }
}
