/**
 * The older multi-site deployer of deploy.py: each site goes either over FTP
 * (a file-by-file upload of the local tree) or over rsync, chosen by its `method`
 * key; the run counts successes and failures, and a single site can be deployed
 * by name.
 */
module LegacyDeploy {
  import opened Common
  import Text

  /** One entry of sites-config.json as deploy.py reads it; `method` is optional. */
  datatype LegacySite = LegacySite(
    name: string,
    url: string,
    deployMethod: Option<string>,
    localPath: string,
    remotePath: string,
    ftpHost: string,
    ftpUser: string,
    ftpPass: string,
    sshUser: string,
    sshHost: string)

  datatype Transport = ViaFtp | ViaSsh

  /** `if site.get('method') == 'ssh': ... else: ...` */
  function ChooseTransport(site: LegacySite): Transport {
    if site.deployMethod == Some("ssh") then ViaSsh else ViaFtp
  }

  /** SSH is chosen only for the method `ssh`; any other method, or none, means FTP. */
  lemma FtpIsTheDefault(site: LegacySite)
    ensures ChooseTransport(site) == ViaSsh <==> site.deployMethod.Some? && site.deployMethod.value == "ssh"
    ensures site.deployMethod.None? ==> ChooseTransport(site) == ViaFtp
  {
  }

  /** A path `rglob('*')` yields, as its components relative to the local path, and whether it is a regular file. */
  datatype WalkEntry = WalkEntry(parts: seq<string>, isFile: bool)

  /** The FTP requests deploy_via_ftp makes; `Stor` includes opening the local file. */
  datatype FtpCommand =
    | Connect(host: string)
    | Login(user: string, password: string)
    | Cwd(dir: string)
    | Mkd(dir: string)
    | Stor(file: string)
    | Quit

  /** What `subprocess.run(cmd, capture_output=True, text=True)` did: exited with a code, or raised. */
  datatype ProcOutcome = Exited(returnCode: int, stderr: string) | Raised(message: string)

  /**
   * The world a run works against: the path separator of the machine, the walk of
   * each local path, whether the FTP server of a host accepts a request, what
   * rsync does for an argument vector, and whether a URL answers 200.
   */
  datatype LegacyEnv = LegacyEnv(
    sep: char,
    walk: string -> seq<WalkEntry>,
    ftp: (string, FtpCommand) -> bool,
    rsync: seq<string> -> ProcOutcome,
    online: string -> bool)

  // ---------------------------------------------------------------------------
  // Remote names
  // ---------------------------------------------------------------------------

  /** `str(path)` of a relative path: its components joined by the separator, or `.` for the empty path. */
  function PathText(parts: seq<string>, sep: char): string {
    if |parts| == 0 then "." else Text.Join(parts, sep)
  }

  /** `path.parent` of a relative path. */
  function Parent(parts: seq<string>): seq<string> {
    if |parts| == 0 then [] else parts[..|parts| - 1]
  }

  /** `str(relative_path).replace('\\', '/')`. */
  function RemoteFile(entry: WalkEntry, sep: char): string {
    Text.ReplaceChar(PathText(entry.parts, sep), '\\', '/')
  }

  /** `str(relative_path.parent).replace('\\', '/')`. */
  function RemoteDir(entry: WalkEntry, sep: char): string {
    Text.ReplaceChar(PathText(Parent(entry.parts), sep), '\\', '/')
  }

  lemma {:induction false} JoinLength(parts: seq<string>, sep: char)
    requires |parts| > 0 && forall k :: 0 <= k < |parts| ==> parts[k] != ""
    ensures |Text.Join(parts, sep)| >= 2 * |parts| - 1
  {
    if |parts| > 1 {
      assert forall k :: 0 <= k < |parts[1..]| ==> parts[1..][k] == parts[k + 1];
      JoinLength(parts[1..], sep);
    }
  }

  /**
   * A directory is created exactly for a file below the top level, provided no
   * path component is empty or `.` (which `rglob` never yields).
   */
  lemma MkdIffNested(entry: WalkEntry, sep: char)
    requires |entry.parts| > 0
    requires forall k :: 0 <= k < |entry.parts| ==> entry.parts[k] != "" && entry.parts[k] != "."
    ensures RemoteDir(entry, sep) != "." <==> |entry.parts| >= 2
  {
    var parent := Parent(entry.parts);
    if |parent| == 1 {
      var r := RemoteDir(entry, sep);
      assert PathText(parent, sep) == parent[0] == entry.parts[0];
    } else if |parent| >= 2 {
      assert forall k :: 0 <= k < |parent| ==> parent[k] == entry.parts[k];
      JoinLength(parent, sep);
    }
  }

  lemma {:induction false} JoinAvoids(parts: seq<string>, sep: char, c: char)
    requires c != sep && forall k :: 0 <= k < |parts| ==> c !in parts[k]
    ensures c !in Text.Join(parts, sep)
  {
    if |parts| > 1 {
      assert forall k :: 0 <= k < |parts[1..]| ==> parts[1..][k] == parts[k + 1];
      JoinAvoids(parts[1..], sep, c);
    }
  }

  /**
   * On a POSIX machine and on Windows alike, the remote name of a file is its
   * components joined by `/`, provided no component contains a backslash.
   */
  lemma RemoteFileIsSlashJoined(entry: WalkEntry, sep: char)
    requires sep == '/' || sep == '\\'
    requires |entry.parts| > 0 && forall k :: 0 <= k < |entry.parts| ==> '\\' !in entry.parts[k]
    ensures RemoteFile(entry, sep) == Text.Join(entry.parts, '/')
  {
    if sep == '\\' {
      Text.ReplaceJoin(entry.parts, '\\', '/');
    } else {
      JoinAvoids(entry.parts, '/', '\\');
      Text.ReplaceUntouched(Text.Join(entry.parts, '/'), '\\', '/');
    }
  }

  // ---------------------------------------------------------------------------
  // deploy_via_ftp
  // ---------------------------------------------------------------------------

  /** The requests one walk entry causes: none for a directory; an optional `mkd` and a `STOR` for a file. */
  function EntryCommands(entry: WalkEntry, sep: char): seq<FtpCommand> {
    if !entry.isFile then []
    else (if RemoteDir(entry, sep) != "." then [Mkd(RemoteDir(entry, sep))] else []) + [Stor(RemoteFile(entry, sep))]
  }

  /** The requests of the whole walk, entry after entry. */
  function Uploads(walk: seq<WalkEntry>, sep: char): seq<FtpCommand> {
    if |walk| == 0 then []
    else Uploads(walk[..|walk| - 1], sep) + EntryCommands(walk[|walk| - 1], sep)
  }

  function Opening(site: LegacySite): seq<FtpCommand> {
    [Connect(site.ftpHost), Login(site.ftpUser, site.ftpPass), Cwd(site.remotePath)]
  }

  /** Every request deploy_via_ftp makes when none fails. */
  function FtpPlan(site: LegacySite, env: LegacyEnv): seq<FtpCommand> {
    Opening(site) + Uploads(env.walk(site.localPath), env.sep) + [Quit]
  }

  /** Where an FTP session stands: no exception so far, and the requests made. */
  datatype Session = Session(ok: bool, sent: seq<FtpCommand>)

  /** A request lets the session go on: it succeeded, or it is an `mkd`, whose failure is swallowed. */
  predicate Accepted(cmd: FtpCommand, host: string, ftp: (string, FtpCommand) -> bool) {
    cmd.Mkd? || ftp(host, cmd)
  }

  /** Make one more request, unless an exception already ended the session. */
  function Step(s: Session, cmd: FtpCommand, host: string, ftp: (string, FtpCommand) -> bool): Session {
    if !s.ok then s else Session(Accepted(cmd, host, ftp), s.sent + [cmd])
  }

  /** The session that makes the requests of `plan` in order. */
  function FtpRun(plan: seq<FtpCommand>, host: string, ftp: (string, FtpCommand) -> bool): Session {
    if |plan| == 0 then Session(true, [])
    else Step(FtpRun(plan[..|plan| - 1], host, ftp), plan[|plan| - 1], host, ftp)
  }

  /** The session succeeds exactly when every request of its plan is accepted. */
  lemma {:induction false} FtpRunOkIff(plan: seq<FtpCommand>, host: string, ftp: (string, FtpCommand) -> bool)
    ensures FtpRun(plan, host, ftp).ok <==> forall i :: 0 <= i < |plan| ==> Accepted(plan[i], host, ftp)
  {
    if |plan| > 0 {
      var init := plan[..|plan| - 1];
      FtpRunOkIff(init, host, ftp);
      assert forall i :: 0 <= i < |init| ==> init[i] == plan[i];
    }
  }

  /** The session makes a prefix of its plan, all of it when it succeeds. */
  lemma {:induction false} FtpRunSentPrefix(plan: seq<FtpCommand>, host: string, ftp: (string, FtpCommand) -> bool)
    ensures var s := FtpRun(plan, host, ftp);
      && |s.sent| <= |plan| && s.sent == plan[..|s.sent|]
      && (s.ok ==> s.sent == plan)
  {
    if |plan| > 0 {
      var init := plan[..|plan| - 1];
      FtpRunSentPrefix(init, host, ftp);
      var s := FtpRun(init, host, ftp);
      if s.ok {
        assert plan == init + [plan[|plan| - 1]];
      } else {
        assert init[..|s.sent|] == plan[..|s.sent|];
      }
    }
  }

  /** A failed session stops right after the first request that was not accepted. */
  lemma {:induction false} FtpRunStopsAtFailure(plan: seq<FtpCommand>, host: string, ftp: (string, FtpCommand) -> bool)
    requires !FtpRun(plan, host, ftp).ok
    ensures var n := |FtpRun(plan, host, ftp).sent|;
      && 0 < n <= |plan| && !Accepted(plan[n - 1], host, ftp)
      && forall i :: 0 <= i < n - 1 ==> Accepted(plan[i], host, ftp)
  {
    var init := plan[..|plan| - 1];
    var s := FtpRun(init, host, ftp);
    FtpRunSentPrefix(init, host, ftp);
    if s.ok {
      FtpRunOkIff(init, host, ftp);
      assert forall i :: 0 <= i < |init| ==> init[i] == plan[i];
    } else {
      FtpRunStopsAtFailure(init, host, ftp);
      assert forall i :: 0 <= i < |s.sent| ==> init[i] == plan[i];
    }
  }

  /** The replies to `mkd` never matter: the same session results whatever they are. */
  lemma {:induction false} MkdRepliesIgnored(plan: seq<FtpCommand>, host: string, f: (string, FtpCommand) -> bool, g: (string, FtpCommand) -> bool)
    requires forall cmd: FtpCommand :: !cmd.Mkd? ==> f(host, cmd) == g(host, cmd)
    ensures FtpRun(plan, host, f) == FtpRun(plan, host, g)
  {
    if |plan| > 0 {
      MkdRepliesIgnored(plan[..|plan| - 1], host, f, g);
      assert Accepted(plan[|plan| - 1], host, f) == Accepted(plan[|plan| - 1], host, g);
    }
  }

  /** Once a request failed, no later request is made and the outcome stays a failure. */
  lemma {:induction false} FailedSessionStays(a: seq<FtpCommand>, b: seq<FtpCommand>, host: string, ftp: (string, FtpCommand) -> bool)
    requires !FtpRun(a, host, ftp).ok
    ensures FtpRun(a + b, host, ftp) == FtpRun(a, host, ftp)
  {
    if |b| == 0 {
      assert a + b == a;
    } else {
      var init := b[..|b| - 1];
      assert (a + b)[..|a + b| - 1] == a + init;
      assert (a + b)[|a + b| - 1] == b[|b| - 1];
      FailedSessionStays(a, init, host, ftp);
    }
  }

  lemma FtpRunSnoc(a: seq<FtpCommand>, cmd: FtpCommand, host: string, ftp: (string, FtpCommand) -> bool)
    ensures FtpRun(a + [cmd], host, ftp) == Step(FtpRun(a, host, ftp), cmd, host, ftp)
  {
    assert (a + [cmd])[..|a|] == a;
  }

  /** The requests of one file entry, made in a session that is still going. */
  lemma EntryStep(a: seq<FtpCommand>, entry: WalkEntry, sep: char, host: string, ftp: (string, FtpCommand) -> bool)
    requires FtpRun(a, host, ftp).ok
    ensures FtpRun(a + EntryCommands(entry, sep), host, ftp) ==
      Session(!entry.isFile || ftp(host, Stor(RemoteFile(entry, sep))), FtpRun(a, host, ftp).sent + EntryCommands(entry, sep))
  {
    var cmds := EntryCommands(entry, sep);
    if !entry.isFile {
      assert a + cmds == a;
    } else if RemoteDir(entry, sep) != "." {
      var mkd, stor := Mkd(RemoteDir(entry, sep)), Stor(RemoteFile(entry, sep));
      assert a + cmds == (a + [mkd]) + [stor];
      FtpRunSnoc(a, mkd, host, ftp);
      FtpRunSnoc(a + [mkd], stor, host, ftp);
    } else {
      FtpRunSnoc(a, Stor(RemoteFile(entry, sep)), host, ftp);
    }
  }

  lemma {:induction false} UploadsAppend(a: seq<WalkEntry>, b: seq<WalkEntry>, sep: char)
    ensures Uploads(a + b, sep) == Uploads(a, sep) + Uploads(b, sep)
  {
    if |b| == 0 {
      assert a + b == a;
    } else {
      var init, last := b[..|b| - 1], b[|b| - 1];
      assert (a + b)[..|a + b| - 1] == a + init;
      assert (a + b)[|a + b| - 1] == last;
      var x, y, z := Uploads(a, sep), Uploads(init, sep), EntryCommands(last, sep);
      assert Uploads(a + b, sep) == Uploads(a + init, sep) + z;
      UploadsAppend(a, init, sep);
      assert (x + y) + z == x + (y + z);
    }
  }

  /** Some file of the walk has this remote name. */
  predicate HasFileNamed(walk: seq<WalkEntry>, sep: char, name: string) {
    exists i :: 0 <= i < |walk| && walk[i].isFile && RemoteFile(walk[i], sep) == name
  }

  /** Only regular files are uploaded: a `STOR` is made for a name exactly when some file of the walk has that remote name. */
  lemma {:induction false} StorOnlyForFiles(walk: seq<WalkEntry>, sep: char, name: string)
    ensures Stor(name) in Uploads(walk, sep) <==> HasFileNamed(walk, sep, name)
  {
    if |walk| > 0 {
      var n := |walk|;
      var init, last := walk[..n - 1], walk[n - 1];
      StorOnlyForFiles(init, sep, name);
      assert Stor(name) in EntryCommands(last, sep) <==> last.isFile && RemoteFile(last, sep) == name;
      FileNamedSnoc(walk, sep, name);
    }
  }

  lemma FileNamedSnoc(walk: seq<WalkEntry>, sep: char, name: string)
    requires |walk| > 0
    ensures var n := |walk|;
      HasFileNamed(walk, sep, name) <==>
      HasFileNamed(walk[..n - 1], sep, name) || (walk[n - 1].isFile && RemoteFile(walk[n - 1], sep) == name)
  {
    var n := |walk|;
    var init := walk[..n - 1];
    if HasFileNamed(walk, sep, name) {
      var i :| 0 <= i < n && walk[i].isFile && RemoteFile(walk[i], sep) == name;
      if i < n - 1 {
        assert init[i] == walk[i];
      }
    }
    if HasFileNamed(init, sep, name) {
      var i :| 0 <= i < n - 1 && init[i].isFile && RemoteFile(init[i], sep) == name;
      assert walk[i] == init[i];
    }
  }

  /** An `mkd` is made only for a directory other than `.` that holds a file of the walk. */
  lemma {:induction false} MkdOnlyForFileDirs(walk: seq<WalkEntry>, sep: char, name: string)
    requires Mkd(name) in Uploads(walk, sep)
    ensures name != "." && exists i :: 0 <= i < |walk| && walk[i].isFile && RemoteDir(walk[i], sep) == name
  {
    var n := |walk|;
    var init, last := walk[..n - 1], walk[n - 1];
    if Mkd(name) in Uploads(init, sep) {
      MkdOnlyForFileDirs(init, sep, name);
      var i :| 0 <= i < |init| && init[i].isFile && RemoteDir(init[i], sep) == name;
      assert walk[i] == init[i];
    } else {
      assert Mkd(name) in EntryCommands(last, sep);
      assert walk[n - 1].isFile && RemoteDir(walk[n - 1], sep) == name;
    }
  }

  /** The requests of a file entry, made one after the other. */
  lemma AppendEntry(s: seq<FtpCommand>, entry: WalkEntry, sep: char)
    requires entry.isFile
    ensures s + EntryCommands(entry, sep) ==
      (if RemoteDir(entry, sep) != "." then s + [Mkd(RemoteDir(entry, sep))] else s) + [Stor(RemoteFile(entry, sep))]
  {
    if RemoteDir(entry, sep) != "." {
      assert s + ([Mkd(RemoteDir(entry, sep))] + [Stor(RemoteFile(entry, sep))]) == s + [Mkd(RemoteDir(entry, sep))] + [Stor(RemoteFile(entry, sep))];
    }
  }

  /** The requests after `a` of one more walk entry. */
  lemma UploadsStep(a: seq<FtpCommand>, walk: seq<WalkEntry>, i: nat, sep: char)
    requires i < |walk|
    ensures a + Uploads(walk[..i + 1], sep) == (a + Uploads(walk[..i], sep)) + EntryCommands(walk[i], sep)
  {
    assert walk[..i + 1][..i] == walk[..i];
    var x, y := Uploads(walk[..i], sep), EntryCommands(walk[i], sep);
    assert a + (x + y) == (a + x) + y;
  }

  /** The requests after `a` of the whole walk, split after its first `j` entries. */
  lemma UploadsSplit(a: seq<FtpCommand>, walk: seq<WalkEntry>, j: nat, sep: char)
    requires j <= |walk|
    ensures a + Uploads(walk, sep) == (a + Uploads(walk[..j], sep)) + Uploads(walk[j..], sep)
  {
    assert walk == walk[..j] + walk[j..];
    UploadsAppend(walk[..j], walk[j..], sep);
    var x, y := Uploads(walk[..j], sep), Uploads(walk[j..], sep);
    assert a + (x + y) == (a + x) + y;
  }

  /** A request of the opening, made while the session is still going. */
  lemma OpeningSteps(site: LegacySite, host: string, ftp: (string, FtpCommand) -> bool)
    ensures var o := Opening(site);
      && FtpRun(o[..1], host, ftp) == Session(ftp(host, o[0]), [o[0]])
      && FtpRun(o[..2], host, ftp) == Step(FtpRun(o[..1], host, ftp), o[1], host, ftp)
      && FtpRun(o, host, ftp) == Step(FtpRun(o[..2], host, ftp), o[2], host, ftp)
  {
    var o := Opening(site);
    assert o[..1][..0] == [];
    assert o[..2][..1] == o[..1];
    assert o[..2] == o[..|o| - 1];
  }

  /** Once a request of the opening fails, the rest of the plan is never sent. */
  lemma OpeningFailure(site: LegacySite, env: LegacyEnv, k: nat)
    requires k <= 3 && !FtpRun(Opening(site)[..k], site.ftpHost, env.ftp).ok
    ensures FtpRun(FtpPlan(site, env), site.ftpHost, env.ftp) == FtpRun(Opening(site)[..k], site.ftpHost, env.ftp)
  {
    var o := Opening(site);
    var rest := Uploads(env.walk(site.localPath), env.sep) + [Quit];
    assert FtpPlan(site, env) == o + rest;
    assert o + rest == o[..k] + (o[k..] + rest) by {
      assert o == o[..k] + o[k..];
    }
    FailedSessionStays(o[..k], o[k..] + rest, site.ftpHost, env.ftp);
  }

  /**
   * How the opening ends: the first of `connect`, `login` and `cwd` that fails
   * ends the whole attempt with the requests made so far; when none fails the
   * session goes on after the three.
   */
  lemma OpeningOutcome(site: LegacySite, env: LegacyEnv)
    ensures var host, ftp, plan := site.ftpHost, env.ftp, FtpPlan(site, env);
      var c, l, w := Connect(host), Login(site.ftpUser, site.ftpPass), Cwd(site.remotePath);
      && (!ftp(host, c) ==> FtpRun(plan, host, ftp) == Session(false, [c]))
      && (ftp(host, c) && !ftp(host, l) ==> FtpRun(plan, host, ftp) == Session(false, [c, l]))
      && (ftp(host, c) && ftp(host, l) && !ftp(host, w) ==> FtpRun(plan, host, ftp) == Session(false, [c, l, w]))
      && (ftp(host, c) && ftp(host, l) && ftp(host, w) ==> FtpRun(Opening(site), host, ftp) == Session(true, [c, l, w]))
  {
    var host, ftp, o := site.ftpHost, env.ftp, Opening(site);
    OpeningSteps(site, host, ftp);
    if !ftp(host, o[0]) {
      OpeningFailure(site, env, 1);
    } else if !ftp(host, o[1]) {
      OpeningFailure(site, env, 2);
    } else if !ftp(host, o[2]) {
      assert o[..3] == o;
      OpeningFailure(site, env, 3);
    }
  }

  /** After the uploads, the plan ends with its `quit`. */
  lemma EndsWithQuit(site: LegacySite, env: LegacyEnv)
    ensures FtpRun(FtpPlan(site, env), site.ftpHost, env.ftp) ==
      Step(FtpRun(Opening(site) + Uploads(env.walk(site.localPath), env.sep), site.ftpHost, env.ftp), Quit, site.ftpHost, env.ftp)
  {
    FtpRunSnoc(Opening(site) + Uploads(env.walk(site.localPath), env.sep), Quit, site.ftpHost, env.ftp);
  }

  /**
   * The `for` loop of deploy_via_ftp over the walk of the local tree, in a session
   * that is still going after `sent0`: for each file, its `mkd` (reply ignored) and
   * its `stor`; a failed `stor` ends the attempt.
   */
  method UploadWalk(sent0: seq<FtpCommand>, walk: seq<WalkEntry>, sep: char, host: string, ftp: (string, FtpCommand) -> bool)
    returns (ok: bool, sent: seq<FtpCommand>)
    requires FtpRun(sent0, host, ftp) == Session(true, sent0)
    ensures Session(ok, sent) == FtpRun(sent0 + Uploads(walk, sep), host, ftp)
  {
    sent := sent0;
    assert sent0 + Uploads(walk[..0], sep) == sent0;
    var i := 0;
    while i < |walk|
      invariant 0 <= i <= |walk|
      invariant Session(true, sent) == FtpRun(sent0 + Uploads(walk[..i], sep), host, ftp)
    {
      var entry := walk[i];
      assert FtpRun(sent0 + Uploads(walk[..i + 1], sep), host, ftp) ==
        Session(!entry.isFile || ftp(host, Stor(RemoteFile(entry, sep))), sent + EntryCommands(entry, sep)) by {
        UploadsStep(sent0, walk, i, sep);
        EntryStep(sent0 + Uploads(walk[..i], sep), entry, sep, host, ftp);
      }
      if entry.isFile {
        ghost var sentBefore := sent;
        var remoteDir := RemoteDir(entry, sep);
        var remoteFile := RemoteFile(entry, sep);
        if remoteDir != "." {
          sent := sent + [Mkd(remoteDir)];
        }
        sent := sent + [Stor(remoteFile)];
        AppendEntry(sentBefore, entry, sep);
        if !ftp(host, Stor(remoteFile)) {
          assert FtpRun(sent0 + Uploads(walk, sep), host, ftp) == Session(false, sent) by {
            UploadsSplit(sent0, walk, i + 1, sep);
            FailedSessionStays(sent0 + Uploads(walk[..i + 1], sep), Uploads(walk[i + 1..], sep), host, ftp);
          }
          return false, sent;
        }
      }
      i := i + 1;
    }
    assert walk[..i] == walk;
    ok := true;
  }

  /**
   * `deploy_via_ftp`: connect, log in, change to the remote path, then for every
   * file of the walk create its directory (ignoring failures) and upload it, and
   * quit; any other exception ends the attempt with False.
   */
  method DeployViaFtp(site: LegacySite, env: LegacyEnv) returns (ok: bool, sent: seq<FtpCommand>)
    ensures Session(ok, sent) == FtpRun(FtpPlan(site, env), site.ftpHost, env.ftp)
  {
    var host := site.ftpHost;
    OpeningOutcome(site, env);
    sent := [Connect(host)];
    if !env.ftp(host, Connect(host)) {
      return false, sent;
    }
    sent := sent + [Login(site.ftpUser, site.ftpPass)];
    if !env.ftp(host, Login(site.ftpUser, site.ftpPass)) {
      return false, sent;
    }
    sent := sent + [Cwd(site.remotePath)];
    if !env.ftp(host, Cwd(site.remotePath)) {
      return false, sent;
    }
    assert sent == Opening(site);
    var walk := env.walk(site.localPath);
    ok, sent := UploadWalk(sent, walk, env.sep, host, env.ftp);
    EndsWithQuit(site, env);
    if !ok {
      return false, sent;
    }
    sent := sent + [Quit];
    ok := env.ftp(host, Quit);
  }

  // ---------------------------------------------------------------------------
  // deploy_via_ssh
  // ---------------------------------------------------------------------------

  /** The argument vector deploy_via_ssh hands to rsync. */
  function RsyncArgv(site: LegacySite): seq<string> {
    [ "rsync", "-avz",
      "--exclude", ".git",
      "--exclude", "node_modules",
      "--exclude", "__pycache__",
      site.localPath + "/",
      site.sshUser + "@" + site.sshHost + ":" + site.remotePath ]
  }

  /**
   * The rsync call never deletes remote files: no element of the vector is
   * `--delete`, whatever the site's fields are, and the source and destination are
   * the last two elements.
   */
  lemma RsyncNeverDeletes(site: LegacySite)
    ensures "--delete" !in RsyncArgv(site)
    ensures |RsyncArgv(site)| == 10
    ensures RsyncArgv(site)[8] == site.localPath + "/"
    ensures RsyncArgv(site)[9] == site.sshUser + "@" + site.sshHost + ":" + site.remotePath
  {
    var argv := RsyncArgv(site);
    var source, target := argv[8], argv[9];
    assert source[|source| - 1] == '/';
    assert target[|site.sshUser|] == '@';
    assert forall i :: 0 <= i < 8 ==> argv[i] != "--delete";
  }

  /** `deploy_via_ssh`: True exactly when rsync exited with status 0; a raised exception is False. */
  function DeployViaSsh(site: LegacySite, env: LegacyEnv): (ok: bool)
    ensures ok <==> env.rsync(RsyncArgv(site)).Exited? && env.rsync(RsyncArgv(site)).returnCode == 0
  {
    match env.rsync(RsyncArgv(site))
    case Exited(code, _) => code == 0
    case Raised(_) => false
  }

  // ---------------------------------------------------------------------------
  // deploy_all and deploy_single
  // ---------------------------------------------------------------------------

  /** Whether deploying the site with its chosen transport returns True. */
  function Deployed(site: LegacySite, env: LegacyEnv): bool {
    match ChooseTransport(site)
    case ViaSsh => DeployViaSsh(site, env)
    case ViaFtp => FtpRun(FtpPlan(site, env), site.ftpHost, env.ftp).ok
  }

  /** How many of the sites deploy successfully. */
  function CountOk(sites: seq<LegacySite>, env: LegacyEnv): (r: nat)
    ensures r <= |sites|
  {
    if |sites| == 0 then 0
    else CountOk(sites[..|sites| - 1], env) + if Deployed(sites[|sites| - 1], env) then 1 else 0
  }

  /** The URLs whose status is checked: those of the successful sites, in order. */
  function ProbedUrls(sites: seq<LegacySite>, env: LegacyEnv): seq<string> {
    if |sites| == 0 then []
    else ProbedUrls(sites[..|sites| - 1], env) + if Deployed(sites[|sites| - 1], env) then [sites[|sites| - 1].url] else []
  }

  /** The status check runs once per successful site. */
  lemma {:induction false} OneProbePerSuccess(sites: seq<LegacySite>, env: LegacyEnv)
    ensures |ProbedUrls(sites, env)| == CountOk(sites, env)
  {
    if |sites| > 0 {
      OneProbePerSuccess(sites[..|sites| - 1], env);
    }
  }

  /** What the status check answers never changes the counts. */
  lemma {:induction false} StatusCheckIgnored(sites: seq<LegacySite>, env: LegacyEnv, online: string -> bool)
    ensures CountOk(sites, env.(online := online)) == CountOk(sites, env)
  {
    if |sites| > 0 {
      var other := env.(online := online);
      assert other.sep == env.sep && other.walk == env.walk && other.ftp == env.ftp && other.rsync == env.rsync;
      assert Deployed(sites[|sites| - 1], other) == Deployed(sites[|sites| - 1], env);
      StatusCheckIgnored(sites[..|sites| - 1], env, online);
    }
  }

  /** Deploy one site with the transport its `method` selects. */
  method DeploySite(site: LegacySite, env: LegacyEnv) returns (success: bool)
    ensures success == Deployed(site, env)
  {
    if ChooseTransport(site) == ViaSsh {
      success := DeployViaSsh(site, env);
    } else {
      var sent;
      success, sent := DeployViaFtp(site, env);
    }
  }

  /**
   * `deploy_all`: deploy every site in order, count each one exactly once as
   * successful or failed, and check the URL of each successful site.
   */
  method DeployAll(sites: seq<LegacySite>, env: LegacyEnv) returns (successful: nat, failed: nat, probed: seq<string>)
    ensures successful == CountOk(sites, env)
    ensures successful + failed == |sites|
    ensures probed == ProbedUrls(sites, env)
  {
    successful, failed, probed := 0, 0, [];
    var i := 0;
    while i < |sites|
      invariant 0 <= i <= |sites|
      invariant successful == CountOk(sites[..i], env)
      invariant successful + failed == i
      invariant probed == ProbedUrls(sites[..i], env)
    {
      var site := sites[i];
      assert sites[..i + 1][..i] == sites[..i];
      var success := DeploySite(site, env);
      if success {
        successful := successful + 1;
        var _ := env.online(site.url);
        probed := probed + [site.url];
      } else {
        failed := failed + 1;
      }
      i := i + 1;
    }
    assert sites[..i] == sites;
  }

  /**
   * `deploy_single`: deploy the first site with that name; None when no site has
   * it, in which case nothing is deployed.
   */
  method DeploySingle(sites: seq<LegacySite>, name: string, env: LegacyEnv) returns (outcome: Option<bool>)
    ensures outcome.None? <==> forall i :: 0 <= i < |sites| ==> sites[i].name != name
    ensures outcome.Some? ==>
      exists i :: 0 <= i < |sites| && sites[i].name == name &&
        (forall j :: 0 <= j < i ==> sites[j].name != name) && outcome.value == Deployed(sites[i], env)
  {
    match FirstWhere(sites, (s: LegacySite) => s.name == name)
    case None =>
      outcome := None;
    case Some(i) =>
      var success := DeploySite(sites[i], env);
      outcome := Some(success);
  }
}
