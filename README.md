# Multi-site deployment: a Dafny model

This project models the decision logic of a small multi-site deployment toolkit.
The toolkit has four parts:

- **Deployment manager** (`deploy_manager.py`). It deploys each site configured in
  `config.json`, one after the other. Each site goes through a pipeline: validate the
  local path, run the pre-deploy hooks, transfer (lftp mirror, rsync or git push),
  run the post-deploy hooks on the server, and do an advisory health check. It then
  prints a summary. `--site` deploys a single site.
- **Rollback manager** (`rollback.py`). It keeps copies of live site trees in a
  `backups` directory, named `<site>_<timestamp>`. It lists them newest first, keeps
  only the newest five per site, and restores the latest backup or a named one.
- **Site monitor** (`monitor.py`). It probes each site's `health_check_url`, classifies
  it UP, DOWN or ERROR, and raises one alert with every site that is not UP.
- **Legacy deployer** (`deploy.py`). It uploads each site of `sites-config.json` over
  FTP, file by file, or over rsync, and counts successes and failures.

Everything these scripts do to the outside world is an oracle in the model. This
covers shell commands, FTP requests, rsync, HTTP probes, clocks, and the existence and
walk of local paths. The oracles are function-typed fields of an environment datatype:
`Orchestrator.Env`, `Monitor.MonitorEnv` and `LegacyDeploy.LegacyEnv`. Once the
oracles are fixed, every operation is deterministic.

Modules:

- `Common` (`common.dfy`): `Option`, the `Site` record, a probe outcome, first-match lookup.
- `Text` (`text.dfy`): string helpers and Python's string order.
- `Orchestrator` (`orchestrator.dfy`): class `DeploymentManager`.
  - `results` is the source's result list.
  - `issued` records every command and probe handed to the oracles, in order. This
    lets the model state which commands ran and which did not.
- `Rollback` (`rollback.dfy`): class `RollbackManager`.
  - `backups` is the backup directory, a map from entry name to tree.
  - `trees` holds the live site trees.
- `Monitor` (`monitor.dfy`).
- `LegacyDeploy` (`legacy_deploy.dfy`).
  - The script's class never changes its own fields, so its operations are methods
    and functions over values.
  - The FTP session is a fold over the list of requests it would make (`FtpRun`).

Some of the scripts' behaviour differs from what their docstrings, comments and
each other suggest. The model follows the code:

- The two deployers do not agree on rsync. The legacy rsync vector has no `--delete`
  and excludes `__pycache__`. The deployment manager's rsync line does delete.
- Backups are selected by name prefix, so `blog` also lists, prunes and can restore
  `blogs_...` entries (`Rollback.PrefixSharesBackups`).
- `deploy_single` returns nothing; the deployment result is discarded.
- The legacy FTP upload sends `mkd` only for the parent directory of an uploaded file
  (`LegacyDeploy.MkdOnlyForFileDirs`). An empty local directory is never created on
  the server.
- deploy_manager.py:143 puts `"%Y-%m-%d %H:%M:%S"` inside a double-quoted f-string.
  Only Python 3.12 and later parse this. On older interpreters the whole script fails
  to load. The model assumes a 3.12 interpreter.
- Every command that exits non-zero, local or remote, fails with the message
  `Command execution error: Command failed: <stderr>`, because the generic handler
  wraps the inner exception again.

## Model

| member | source | states |
|---|---|---|
| Common.FirstWhere | deploy_manager.py:279-283 | None exactly when no element matches; otherwise the index of a matching element with no match before it |
| Text.ReplaceChar | deploy.py:77 | same length; every occurrence of the character is replaced and every other character is kept |
| Text.ReplaceJoin | deploy.py:85 | replacing the separator in a joined path gives the components joined by the new separator |
| Text.LexLessTotal | rollback.py:46 | Python's string order is total: of two different strings one is smaller |
| Text.LexLessTransitive | rollback.py:46 | Python's string order is transitive |
| Text.LexLessIrreflexive | rollback.py:46 | no string is smaller than itself |
| Text.LexLessAsymmetric | rollback.py:46 | two strings are never each smaller than the other |
| Orchestrator.CommandOutcomeClasses | deploy_manager.py:158-175 | stdout exactly on exit 0; a timeout gives `Command timed out`; a nonzero exit gives `Command execution error: Command failed: <stderr>`; any other exception gives `Command execution error: <message>` |
| Orchestrator.RemoteRewrite | deploy_manager.py:153-156 | the command is rewritten exactly when both `remote` and a site are given, and then becomes `ssh <user>@<host> '<cmd>'` |
| Orchestrator.RunIssuesPrefix | deploy_manager.py:58-59 | a run of commands issues a prefix of them in order: all of them when none fails, up to and including the failing one otherwise |
| Orchestrator.RunStopsAtFirstFailure | deploy_manager.py:56-59 | when command k is the first that fails, the run stops with its message and issued exactly the first k+1 commands |
| Orchestrator.RunAllPass | deploy_manager.py:58-59 | when every command passes, the run has no error and issued every command |
| Orchestrator.RunSucceedsIff | deploy_manager.py:58-59 | a run has no error exactly when every command passes |
| Orchestrator.GitCommands | deploy_manager.py:140-145 | the git transfer is four commands |
| Orchestrator.GitTransferShape | deploy_manager.py:140-148 | the git transfer is cd, add, commit and push, in that order, each run in the local path |
| Orchestrator.GitFailureStops | deploy_manager.py:136-148 | the git commands are cd, add, commit and push, in that order and in the local path; the first failure ends the transfer with only the commands up to it issued |
| Orchestrator.Transfer | deploy_manager.py:61-69 | a transfer exists exactly for the methods ftp, ssh and git |
| Orchestrator.HealthVerdict | deploy_manager.py:181-191 | the site is logged UP exactly on status 200; a failed probe is only a warning |
| Orchestrator.ResultOf | deploy_manager.py:83-99 | the result names the site and carries its timestamp; its status is `success` or `failed` |
| Orchestrator.MissingLocalPath | deploy_manager.py:52-53 | a missing local path fails with `Local path not found: <path>` and nothing is run |
| Orchestrator.PreDeployFailureStops | deploy_manager.py:56-59 | the first failing pre-deploy hook fails the site with its message; later hooks, the transfer, the post-deploy hooks and the probe never run |
| Orchestrator.UnknownMethodFails | deploy_manager.py:62-69 | an unknown method fails with `Unknown deploy method: <m>` after all pre-deploy hooks ran, and nothing else runs |
| Orchestrator.SuccessIff | deploy_manager.py:50-90 | a site succeeds exactly when its path exists and every pre-deploy hook, transfer command and post-deploy hook passes |
| Orchestrator.HealthCheckIsAdvisory | deploy_manager.py:78-79 | whatever the probe answers, the result and the commands issued are the same |
| Orchestrator.SuccessIssuesEverything | deploy_manager.py:56-79 | a successful site issued its pre-deploy hooks, transfer and post-deploy hooks in order, then its probe |
| Orchestrator.ResultsOf | deploy_manager.py:210-211 | one result per configured site |
| Orchestrator.ResultsInSiteOrder | deploy_manager.py:210-211 | the i-th result is the result of the i-th site |
| Orchestrator.SummaryAddsUp | deploy_manager.py:228-232 | success count plus failed count equals the number of results; one failed-list line per failure |
| Orchestrator.SummarizeAppend | deploy_manager.py:228-239 | the summary of two result lists is the sum of their counts and the concatenation of their failed lists |
| Orchestrator.FailedSitesExactly | deploy_manager.py:235-239 | a (site, error) pair is listed exactly when some failed result has that site and error |
| Orchestrator.EverySiteCounted | deploy_manager.py:209-232 | after a sequential run every configured site is counted once, as successful or failed |
| Orchestrator.SelectSite | deploy_manager.py:279-283 | `--site` picks the first site with that name, or none when no site has it |
| Orchestrator.DeploymentManager.constructor | deploy_manager.py:29-32 | the manager starts on the configured sites with no results and nothing issued |
| Orchestrator.DeploymentManager.RunCommand | deploy_manager.py:150-175 | issues the rewritten command in the given directory and returns its classified outcome |
| Orchestrator.DeploymentManager.RunCommands | deploy_manager.py:56-59 | runs the commands in order until the first failure: error and issued commands are those of the reference run |
| Orchestrator.DeploymentManager.DeployViaFtp | deploy_manager.py:104-118 | issues the one lftp mirror script and reports its failure |
| Orchestrator.DeploymentManager.DeployViaSsh | deploy_manager.py:120-134 | issues the one rsync command line and reports its failure |
| Orchestrator.DeploymentManager.DeployViaGit | deploy_manager.py:136-148 | issues the git commands in order until the first failure |
| Orchestrator.DeploymentManager.Dispatch | deploy_manager.py:61-69 | issues the transfer the method selects; an unknown method raises and issues nothing |
| Orchestrator.DeploymentManager.HealthCheck | deploy_manager.py:177-191 | issues exactly one probe and never raises |
| Orchestrator.DeploymentManager.DeploySite | deploy_manager.py:43-102 | appends exactly one result, returns that result, and issued exactly the site's attempt |
| Orchestrator.DeploymentManager.DeployAll | deploy_manager.py:193-217 | appends one result per site in order after the earlier ones; the summary is the summary of all results |
| Orchestrator.DeploymentManager.DeployRequested | deploy_manager.py:277-286 | with no `--site` every site is deployed; otherwise only the first site with that name; an unknown name deploys nothing |
| Rollback.TimestampOf | rollback.py:43 | `unknown` when the name has no `_`; otherwise the text after the first `_` |
| Rollback.TimestampRoundTrip | rollback.py:19-23 | the timestamp read back from `<site>_<timestamp>` is the timestamp, when the site name has no `_` |
| Rollback.PrefixSharesBackups | rollback.py:37-38 | when one site name extends another, every entry matched for the longer name is matched for the shorter one, so it is listed, pruned and restorable for both |
| Rollback.SortDescPermutation | rollback.py:46 | sorting keeps the same elements with the same multiplicities |
| Rollback.SortDescSorted | rollback.py:46 | the sorted list is in descending timestamp order |
| Rollback.SortDescDistinct | rollback.py:46 | sorting a list of distinct names keeps them distinct |
| Rollback.InsertDescSorted | rollback.py:46 | inserting into a descending list keeps it descending |
| Rollback.RetentionOfListing | rollback.py:80-85 | removing the listing's entries from `backups[keep:]` on (with `SliceStart` giving Python's slice start, negative `keep` included) keeps values and other sites' entries, leaves `len(backups[:keep])` entries, and keeps only the newest |
| Rollback.NewestSurvives | rollback.py:78-85 | a site's strictly newest entry survives any retention that keeps at least one |
| Rollback.LatestIsNewest | rollback.py:58-59 | when one entry is strictly newest, it is the only entry with the greatest timestamp |
| Rollback.StagedIsNewest | rollback.py:17-26 | a new backup newer than all of the site's entries is its strictly newest entry |
| Rollback.RollbackManager.constructor | rollback.py:12-15 | the manager starts over the backups already in the directory and the live trees given |
| Rollback.RollbackManager.ListBackups | rollback.py:33-47 | returns exactly the entries whose name starts with the site name, each with its path and timestamp, distinct, in descending timestamp order |
| Rollback.RollbackManager.CleanupOldBackups | rollback.py:78-85 | removes exactly the entries from position `keep` of a listing, and keeps the retention invariant |
| Rollback.RollbackManager.CreateBackup | rollback.py:17-31 | adds `<site>_<timestamp>` with the live tree, then keeps at most five of the site's backups; a missing source or an existing target changes nothing |
| Rollback.RollbackManager.Rollback | rollback.py:49-76 | succeeds exactly when the site has backups and the name is empty or is one of them; restores the latest or the named one; on failure nothing changes |
| Rollback.RollbackManager.RestoreAfterBackup | rollback.py:17-76 | when the new backup is the site's strictly newest entry (any site name, `_` included), backing up a tree and rolling back to the latest backup gives back the same live tree; the backups are the earlier ones plus the new one, after retention of five |
| Monitor.CheckSite | monitor.py:18-43 | no result exactly when the site has no URL; otherwise the result names the site, the URL and the time |
| Monitor.Classification | monitor.py:23-43 | UP exactly on status 200 and DOWN otherwise, keeping the code and time; a raised probe is ERROR with its message and no code or time |
| Monitor.CheckedAppend | monitor.py:52-55 | results of two site lists are the results of each, one after the other |
| Monitor.CheckedCount | monitor.py:52-55 | one result per site that has a URL |
| Monitor.DownSites | monitor.py:65 | the filter never returns more than it is given |
| Monitor.DownSitesMembers | monitor.py:65 | a result is listed as down exactly when it is a result and is not UP |
| Monitor.DownSitesAppend | monitor.py:65 | the filter keeps result order |
| Monitor.DownSitesEmpty | monitor.py:65-66 | the down list is empty exactly when every result is UP |
| Monitor.CheckAll | monitor.py:45-69 | returns the results in configured order; alerts exactly when some result is not UP, with the down list |
| LegacyDeploy.FtpIsTheDefault | deploy.py:155-158 | SSH exactly for method `ssh`; any other method, or none, is FTP |
| LegacyDeploy.MkdIffNested | deploy.py:77-78 | a directory is created exactly for a file below the top level |
| LegacyDeploy.RemoteFileIsSlashJoined | deploy.py:85 | on POSIX and on Windows the remote name is the path components joined by `/` |
| LegacyDeploy.FtpRunOkIff | deploy.py:63-99 | the attempt returns True exactly when every request is accepted |
| LegacyDeploy.FtpRunSentPrefix | deploy.py:63-99 | the requests made are a prefix of the plan, all of it on success |
| LegacyDeploy.FtpRunStopsAtFailure | deploy.py:96-99 | a failed attempt stops at its last request, the first one refused |
| LegacyDeploy.MkdRepliesIgnored | deploy.py:79-82 | what the server answers to `mkd` never changes the attempt |
| LegacyDeploy.OpeningOutcome | deploy.py:66-68 | a refused connect, login or cwd ends the attempt with the requests made up to it |
| LegacyDeploy.StorOnlyForFiles | deploy.py:72-87 | a name is uploaded exactly when some regular file of the walk has that remote name |
| LegacyDeploy.MkdOnlyForFileDirs | deploy.py:76-82 | `mkd` is sent only for a directory other than `.` that holds a file of the walk |
| LegacyDeploy.UploadWalk | deploy.py:72-89 | for each file, its `mkd` and its `STOR`, stopping at the first refused upload, as the reference session |
| LegacyDeploy.DeployViaFtp | deploy.py:61-99 | the result and the requests made are those of the reference session over the whole plan |
| LegacyDeploy.RsyncNeverDeletes | deploy.py:106-113 | the vector has ten elements and no `--delete`; the last two are `<local>/` and `<user>@<host>:<remote>` |
| LegacyDeploy.DeployViaSsh | deploy.py:115-129 | True exactly when rsync exited with status 0 |
| LegacyDeploy.CountOk | deploy.py:160-161 | never more successes than sites |
| LegacyDeploy.OneProbePerSuccess | deploy.py:160-165 | the status check runs once per successful site |
| LegacyDeploy.StatusCheckIgnored | deploy.py:163-168 | what the status check answers never changes the counts |
| LegacyDeploy.DeploySite | deploy.py:154-158 | deploys with the transport the method selects |
| LegacyDeploy.DeployAll | deploy.py:140-182 | success count as the reference count; successes plus failures is the number of sites; one status check per success |
| LegacyDeploy.DeploySingle | deploy.py:184-199 | nothing is deployed exactly when no site has the name; otherwise the first site with it |

## Left out

- Parallel mode of `deploy_all` (a thread pool): concurrency, with unspecified result order.
- Floats and clocks. The `time` key of a deployment result is not modelled.
  `round(..., 2)` of the response time is not modelled; the monitor keeps the probe's
  elapsed time as it is. The clock readings themselves (`time.time()`, `datetime.now()`)
  are oracle inputs.
- Logging, coloured printing, banners and summary text. Log-file writes are left out,
  including the `log` call inside `deploy_via_ftp`'s `try`, which could itself raise.
- `save_results`, JSON config loading, `sys.exit`, argparse, dry-run mode and `list_sites`.
- KeyErrors for missing configuration keys. Every `Site` has every field, and an absent
  hook list is the empty list.
- JSON `null` values. A key that is present but `null` is read like an absent key: a
  `null` hook list runs no hooks and a `null` `ssh_port` becomes 22. In the scripts,
  `"pre_deploy": null` raises a TypeError inside the `try`, so the site fails, and a
  `null` port is rendered as `-p None`.
- What the shell, lftp, rsync, ssh, git, ftplib and the HTTP library actually do. Each
  is an oracle answer.
- State in the outside world. The oracles are plain functions. The shell gives the
  same outcome to the same invocation every time. The FTP server gives the same answer
  to the same host and request. The clocks give one reading per site name. State that
  the real shell, server or clock keeps across sites or over time is not modelled.
- The delivery of `send_alert` (a stub). The model gives its argument.
- The real filesystem and symlink semantics of `copytree`/`rmtree`. Trees are abstract
  values, and live trees and the backup directory are disjoint maps.
- Rollback.RollbackManager.Rollback: an error of `rmtree`/`copytree` while restoring
  is not modelled; the restore always succeeds once a backup is chosen.
- Rollback.RollbackManager.CreateBackup: only a missing source and an existing target
  are modelled as `copytree` errors.
- Rollback.RollbackManager.ListBackups: the order of `os.listdir` is not modelled. Ties
  in timestamp may come out in any order the listing allows.
- Shell quoting and injection in the f-string commands.
- `Orchestrator.DeploymentManager`'s `issued` field, the `sent` output of the FTP
  methods and the `probed` output of `LegacyDeploy.DeployAll` are records of effects.
  They are not values of the scripts.
