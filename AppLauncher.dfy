/**
 * The launch gate: the security screening of a path, the executable check,
 * the administrator-privilege heuristic, the launch itself, and finding and
 * terminating running instances. The file system, the environment, path
 * normalisation and process creation are oracles passed in; the process
 * table is the one piece of state.
 */
module AppLauncher {
  import opened Text
  import opened Paths

  const MaxPathLength: nat := 260

  const ValidExtensions: set<string> := {".exe", ".com", ".bat", ".cmd", ".msi", ".ps1"}

  /**
   * The characters a path may not contain. `validate_security` keeps them in a set,
   * whose iteration order is not specified; the list order here is one such
   * order, and no contract depends on it.
   */
  const InvalidChars: seq<char> := ['<', '>', '|', '"', '*', '?']

  const AdminApps: set<string> := {"regedit.exe", "gpedit.msc", "secpol.msc", "services.msc"}

  // ---------------------------------------------------------------------
  // Security screening

  datatype SecurityError = PathTooLong | Traversal | InvalidChar(c: char) | NotAbsolute | NetworkPath

  function SecurityMessage(e: SecurityError): string
  {
    match e
    case PathTooLong => "ファイルパスが長すぎます"
    case Traversal => "セキュリティエラー: 不正なパス形式です"
    case InvalidChar(c) => "セキュリティエラー: 無効な文字が含まれています: " + [c]
    case NotAbsolute => "セキュリティエラー: 絶対パスを指定してください"
    case NetworkPath => "セキュリティエラー: ネットワークパスはサポートされていません"
  }

  /** The first of `cs` that occurs in `p`. */
  function FirstInvalid(p: string, cs: seq<char>): (r: Option<char>)
    ensures r.Some? ==> r.value in cs && r.value in p
    ensures r.None? ==> forall i :: 0 <= i < |cs| ==> cs[i] !in p
  {
    if |cs| == 0 then None
    else if cs[0] in p then Some(cs[0])
    else FirstInvalid(p, cs[1..])
  }

  /** None of the forbidden characters occurs in `p`. */
  predicate NoInvalidChar(p: string)
  {
    forall c :: c in InvalidChars ==> c !in p
  }

  /** `_validate_security`: `None` is `(True, None)`; otherwise the first failing check. */
  function ValidateSecurity(p: string): (r: Option<SecurityError>)
    ensures r == Some(PathTooLong) <==> |p| > MaxPathLength
    ensures r == Some(Traversal) <==> |p| <= MaxPathLength && Contains(p, "..")
    ensures (r.Some? && r.value.InvalidChar?) <==>
      |p| <= MaxPathLength && !Contains(p, "..") && !NoInvalidChar(p)
    ensures r.Some? && r.value.InvalidChar? ==> r.value.c in InvalidChars && r.value.c in p
    ensures r == Some(NotAbsolute) <==>
      |p| <= MaxPathLength && !Contains(p, "..") && NoInvalidChar(p) && !IsAbs(p)
    ensures r == Some(NetworkPath) <==>
      |p| <= MaxPathLength && !Contains(p, "..") && NoInvalidChar(p) && IsAbs(p)
      && StartsWith(p, "\\\\")
    ensures r.None? <==>
      |p| <= MaxPathLength && !Contains(p, "..") && NoInvalidChar(p) && IsAbs(p)
      && !StartsWith(p, "\\\\")
  {
    if |p| > MaxPathLength then Some(PathTooLong)
    else if Contains(p, "..") then Some(Traversal)
    else match FirstInvalid(p, InvalidChars)
      case Some(c) => Some(InvalidChar(c))
      case None =>
        if !IsAbs(p) then Some(NotAbsolute)
        else if StartsWith(p, "\\\\") then Some(NetworkPath)
        else None
  }

  /** The paths the screening is meant to let through, stated without its chain of checks. */
  ghost predicate Safe(p: string)
  {
    && |p| <= MaxPathLength
    && !(exists i :: OccursAt(p, "..", i))
    && NoInvalidChar(p)
    && IsAbs(p)
    && !StartsWith(p, "\\\\")
  }

  /** The screening passes a path exactly when it is safe. */
  lemma ValidateSecurityIff(p: string)
    ensures ValidateSecurity(p).None? <==> Safe(p)
  {
    ContainsIff(p, "..");
  }

  // ---------------------------------------------------------------------
  // Executable and privilege checks

  /** `is_valid_executable`: an existing non-empty file whose lowercased suffix is allowed. */
  predicate IsValidExecutable(p: string, fs: FileSystem): (r: bool)
    ensures r ==> IsFile(fs, p) && fs[p].size > 0 && PathSuffix(p) != ""
    ensures !Exists(fs, p) ==> !r
  {
    && Exists(fs, p)
    && !IsDir(fs, p)
    && Lower(PathSuffix(p)) in ValidExtensions
    && fs[p].size != 0
  }

  lemma LowerEndsWith(s: string, t: string)
    requires EndsWith(s, t)
    ensures EndsWith(Lower(s), Lower(t))
  {
    assert Lower(s)[|s| - |t|..] == Lower(t);
  }

  /** An allowed extension is never empty, so neither is the suffix it was read from. */
  lemma AllowedSuffixNonEmpty(sfx: string)
    requires Lower(sfx) in ValidExtensions
    ensures sfx != ""
  {
    assert "" !in ValidExtensions;
    assert |Lower(sfx)| == |sfx|;
  }

  /**
   * An accepted executable is a non-empty file whose name, lowercased and
   * without trailing separators, ends in one of the allowed extensions.
   */
  lemma ValidExecutableEnding(p: string, fs: FileSystem)
    requires IsValidExecutable(p, fs)
    ensures IsFile(fs, p) && fs[p].size > 0
    ensures exists e :: e in ValidExtensions && EndsWith(Lower(TrimTrailingSeps(p)), e)
  {
    var sfx := PathSuffix(p);
    AllowedSuffixNonEmpty(sfx);
    LowerEndsWith(TrimTrailingSeps(p), sfx);
  }

  /** Environment variables; an unset variable reads as `''`. */
  type Environment = map<string, string>

  function GetEnv(env: Environment, key: string): string
  {
    if key in env then env[key] else ""
  }

  function SystemDirs(env: Environment): (r: seq<string>)
    ensures |r| == 3 && forall i :: 0 <= i < 3 ==> r[i] != ""
  {
    [Join(GetEnv(env, "WINDIR"), "System32"),
     Join(GetEnv(env, "WINDIR"), "SysWOW64"),
     Join(GetEnv(env, "ProgramFiles"), "Windows NT")]
  }

  /** The scan over the system directories: does `n` start with one of them, normalised and lowercased? */
  function UnderSomeDir(n: string, dirs: seq<string>, norm: string -> string): (r: bool)
    ensures r <==> exists i :: 0 <= i < |dirs| && dirs[i] != "" && StartsWith(n, Lower(norm(dirs[i])))
  {
    if |dirs| == 0 then false
    else if dirs[0] != "" && StartsWith(n, Lower(norm(dirs[0]))) then true
    else
      var r := UnderSomeDir(n, dirs[1..], norm);
      assert forall i :: 1 <= i < |dirs| ==> dirs[i] == dirs[1..][i - 1];
      r
  }

  /** `requires_admin_privileges`; `norm` is `os.path.normpath`. */
  function RequiresAdminPrivileges(p: string, env: Environment, norm: string -> string): (r: bool)
    ensures r <==>
      && (exists i :: 0 <= i < 3 && StartsWith(Lower(norm(p)), Lower(norm(SystemDirs(env)[i]))))
      && Basename(Lower(norm(p))) in AdminApps
  {
    var n := Lower(norm(p));
    UnderSomeDir(n, SystemDirs(env), norm) && Basename(n) in AdminApps
  }

  /** Outside the three system directories nothing needs elevation, whatever its name. */
  lemma AdminOnlyInSystemDirs(p: string, env: Environment, norm: string -> string)
    requires forall i :: 0 <= i < 3 ==> !StartsWith(Lower(norm(p)), Lower(norm(SystemDirs(env)[i])))
    ensures !RequiresAdminPrivileges(p, env, norm)
  {
  }

  // ---------------------------------------------------------------------
  // Launching

  /** `LaunchResult` without its timing field. */
  datatype LaunchResult = LaunchResult(
    success: bool,
    processId: Option<int>,
    errorCode: Option<int>,
    errorMessage: Option<string>)

  function Failure(message: string): LaunchResult
  {
    LaunchResult(false, None, None, Some(message))
  }

  /**
   * What `subprocess.Popen` does with the command: starts a process or
   * raises. A started process has the name and executable the operating
   * system reports for it, which for a `.bat` or `.cmd` file are those of
   * the command interpreter rather than of the file.
   */
  datatype SpawnOutcome =
    | Spawned(pid: int, name: string, exe: string)
    | NotFoundError(text: string)
    | PermissionDenied(text: string)
    | SystemError(errno: int, text: string)
    | UnexpectedError(text: string)

  /** `cmd = [app_path]` extended by the arguments, if any. */
  function Command(p: string, args: seq<string>): (r: seq<string>)
    ensures |r| == 1 + |args| && r[0] == p && r[1..] == args
  {
    [p] + args
  }

  /** The result `launch_application` returns: screening, existence, file type, then the spawn. */
  function LaunchOutcome(p: string, args: seq<string>, fs: FileSystem, spawn: SpawnOutcome): (r: LaunchResult)
    ensures r.success ==> spawn.Spawned? && p != ""
    ensures ValidateSecurity(p).Some? ==> r == Failure(SecurityMessage(ValidateSecurity(p).value))
    ensures ValidateSecurity(p).None? && !Exists(fs, p) ==>
      r == Failure("指定されたファイルが見つかりません: " + p)
    ensures ValidateSecurity(p).None? && Exists(fs, p) && !IsValidExecutable(p, fs) ==>
      r == Failure("無効なファイル形式です: " + p)
    ensures r.success <==> ValidateSecurity(p).None? && IsValidExecutable(p, fs) && spawn.Spawned?
    ensures r.success ==> r == LaunchResult(true, Some(spawn.pid), None, None)
    ensures !r.success ==> r.processId.None? && r.errorMessage.Some?
    ensures r.errorCode.Some? ==> spawn.SystemError? && r.errorCode.value == spawn.errno
  {
    match ValidateSecurity(p)
    case Some(e) => Failure(SecurityMessage(e))
    case None =>
      if !Exists(fs, p) then Failure("指定されたファイルが見つかりません: " + p)
      else if !IsValidExecutable(p, fs) then Failure("無効なファイル形式です: " + p)
      else match spawn
        case Spawned(pid, _, _) => LaunchResult(true, Some(pid), None, None)
        case NotFoundError(t) => Failure("ファイルが見つかりません: " + t)
        case PermissionDenied(t) => Failure("権限が不足しています: " + t)
        case SystemError(errno, t) => LaunchResult(false, None, Some(errno), Some("システムエラー: " + t))
        case UnexpectedError(t) => Failure("予期しないエラー: " + t)
  }

  /** Whatever is launched passed every check: a safe path to a non-empty allowed executable. */
  lemma LaunchedPathsAreSafe(p: string, args: seq<string>, fs: FileSystem, spawn: SpawnOutcome)
    requires LaunchOutcome(p, args, fs, spawn).success
    ensures Safe(p)
    ensures IsFile(fs, p) && fs[p].size > 0
    ensures exists e :: e in ValidExtensions && EndsWith(Lower(TrimTrailingSeps(p)), e)
  {
    ValidateSecurityIff(p);
    ValidExecutableEnding(p, fs);
  }

  /** The `runas` command line `launch_with_admin` builds (and does not run). */
  function RunasCommand(p: string, args: seq<string>): (r: seq<string>)
    ensures |r| == 3 && r[0] == "runas" && StartsWith(r[2], "\"" + p + "\"")
  {
    ["runas", "/user:Administrator", "\"" + p + "\"" + (if |args| == 0 then "" else " " + QuoteJoin(args))]
  }

  /** `' '.join(f'"{a}"' for a in args)` */
  function QuoteJoin(args: seq<string>): (r: string)
    ensures r == "" <==> args == []
    ensures args != [] ==> r[0] == '"' && r[|r| - 1] == '"'
  {
    if |args| == 0 then ""
    else if |args| == 1 then "\"" + args[0] + "\""
    else "\"" + args[0] + "\" " + QuoteJoin(args[1..])
  }

  /** Each further argument is appended quoted, after one space. */
  lemma {:induction false} QuoteJoinSnoc(args: seq<string>, a: string)
    requires args != []
    ensures QuoteJoin(args + [a]) == QuoteJoin(args) + " \"" + a + "\""
  {
    if |args| > 1 {
      assert (args + [a])[1..] == args[1..] + [a];
      QuoteJoinSnoc(args[1..], a);
    }
  }

  /** `launch_with_admin`: reports success without starting anything. */
  function LaunchWithAdmin(p: string, args: seq<string>): (r: LaunchResult)
    ensures r.success && r.processId.None? && r.errorMessage.None? && r.errorCode.None?
  {
    var _ := RunasCommand(p, args);
    LaunchResult(true, None, None, None)
  }

  // ---------------------------------------------------------------------
  // Running processes

  /**
   * One process as `process_iter(['pid', 'name', 'exe'])` reports it; an
   * attribute it could not read is `''`. `terminable` says whether
   * `terminate()` succeeds or raises `NoSuchProcess`/`AccessDenied`.
   */
  datatype ProcessEntry = ProcessEntry(pid: int, name: string, exe: string, cmdline: seq<string>, terminable: bool)

  /** The match both `is_application_running` and `kill_application` use. */
  predicate Matches(proc: ProcessEntry, p: string, norm: string -> string): (r: bool)
    ensures proc.name == "" && proc.exe == "" ==> !r
    ensures proc.name != "" && proc.name == Basename(p) ==> r
    ensures proc.exe != "" && proc.exe == p ==> r
  {
    || (proc.name != "" && Lower(proc.name) == Lower(Basename(p)))
    || (proc.exe != "" && Lower(norm(proc.exe)) == Lower(norm(p)))
  }

  /** A process `kill_application` succeeds in signalling. */
  predicate Killable(proc: ProcessEntry, p: string, norm: string -> string): (r: bool)
    ensures r ==> Matches(proc, p, norm)
    ensures !proc.terminable ==> !r
  {
    Matches(proc, p, norm) && proc.terminable
  }

  /** The pids of the entries that pass `k`, in table order. */
  function SignalledBy(procs: seq<ProcessEntry>, k: ProcessEntry -> bool): (r: seq<int>)
    ensures |r| <= |procs|
  {
    if |procs| == 0 then []
    else
      var last := procs[|procs| - 1];
      SignalledBy(procs[..|procs| - 1], k) + (if k(last) then [last.pid] else [])
  }

  lemma {:induction false} SignalledByNonEmpty(procs: seq<ProcessEntry>, k: ProcessEntry -> bool)
    ensures SignalledBy(procs, k) != [] <==> exists i :: 0 <= i < |procs| && k(procs[i])
  {
    if |procs| > 0 {
      var init := procs[..|procs| - 1];
      var last := |procs| - 1;
      SignalledByNonEmpty(init, k);
      if !k(procs[last]) {
        assert SignalledBy(procs, k) == SignalledBy(init, k);
        if exists i :: 0 <= i < |procs| && k(procs[i]) {
          var i :| 0 <= i < |procs| && k(procs[i]);
          assert init[i] == procs[i];
        }
        if exists i :: 0 <= i < |init| && k(init[i]) {
          var i :| 0 <= i < |init| && k(init[i]);
          assert init[i] == procs[i];
        }
      }
    }
  }

  lemma {:induction false} SignalledByOnly(procs: seq<ProcessEntry>, k: ProcessEntry -> bool, pid: int)
    requires pid in SignalledBy(procs, k)
    ensures exists i :: 0 <= i < |procs| && procs[i].pid == pid && k(procs[i])
  {
    var init := procs[..|procs| - 1];
    if pid in SignalledBy(init, k) {
      SignalledByOnly(init, k, pid);
      var i :| 0 <= i < |init| && init[i].pid == pid && k(init[i]);
      assert procs[i] == init[i];
    } else {
      assert procs[|procs| - 1].pid == pid;
    }
  }

  /** The pids `kill_application` signals, in table order. */
  function Signalled(procs: seq<ProcessEntry>, p: string, norm: string -> string): (r: seq<int>)
    ensures |r| <= |procs|
  {
    SignalledBy(procs, proc => Killable(proc, p, norm))
  }

  /** Extending the scanned prefix by one entry appends its pid iff it is killable. */
  lemma SignalledStep(procs: seq<ProcessEntry>, i: nat, p: string, norm: string -> string)
    requires i < |procs|
    ensures Signalled(procs[..i + 1], p, norm) ==
      Signalled(procs[..i], p, norm) + (if Killable(procs[i], p, norm) then [procs[i].pid] else [])
  {
    assert procs[..i + 1][..i] == procs[..i];
  }

  /** Some process is signalled exactly when some matching process can be terminated. */
  lemma SignalledNonEmpty(procs: seq<ProcessEntry>, p: string, norm: string -> string)
    ensures Signalled(procs, p, norm) != [] <==>
      exists i :: 0 <= i < |procs| && Killable(procs[i], p, norm)
  {
    SignalledByNonEmpty(procs, proc => Killable(proc, p, norm));
  }

  /** Every signalled pid belongs to a matching, terminable process. */
  lemma SignalledOnlyMatching(procs: seq<ProcessEntry>, p: string, norm: string -> string, pid: int)
    requires pid in Signalled(procs, p, norm)
    ensures exists i :: 0 <= i < |procs| && procs[i].pid == pid && Killable(procs[i], p, norm)
  {
    SignalledByOnly(procs, proc => Killable(proc, p, norm), pid);
  }

  /** The processes of the system, and the pids that have been sent `terminate()`. */
  class ProcessTable {
    var processes: seq<ProcessEntry>
    var terminated: seq<int>

    constructor(procs: seq<ProcessEntry>)
      ensures processes == procs && terminated == []
    {
      processes := procs;
      terminated := [];
    }

    /** `is_application_running` */
    method IsApplicationRunning(p: string, norm: string -> string) returns (running: bool)
      ensures running <==> exists i :: 0 <= i < |processes| && Matches(processes[i], p, norm)
    {
      for i := 0 to |processes|
        invariant forall j :: 0 <= j < i ==> !Matches(processes[j], p, norm)
      {
        if Matches(processes[i], p, norm) {
          return true;
        }
      }
      return false;
    }

    /** `kill_application`: signal every matching process; true iff one was signalled. */
    method KillApplication(p: string, norm: string -> string) returns (killed: bool)
      modifies this
      ensures processes == old(processes)
      ensures terminated == old(terminated) + Signalled(processes, p, norm)
      ensures killed <==> Signalled(processes, p, norm) != []
    {
      var procs := processes;
      var sent: seq<int> := [];
      for i := 0 to |procs|
        invariant unchanged(this)
        invariant sent == Signalled(procs[..i], p, norm)
      {
        SignalledStep(procs, i, p, norm);
        if Killable(procs[i], p, norm) {
          sent := sent + [procs[i].pid];
        }
      }
      assert procs[..|procs|] == procs;
      terminated := terminated + sent;
      killed := sent != [];
    }

    /** `launch_application`: on success the new process joins the table running `[p] + args`. */
    method LaunchApplication(p: string, args: seq<string>, fs: FileSystem, spawn: SpawnOutcome)
      returns (r: LaunchResult)
      modifies this
      ensures r == LaunchOutcome(p, args, fs, spawn)
      ensures terminated == old(terminated)
      ensures r.success ==>
        processes == old(processes) + [ProcessEntry(spawn.pid, spawn.name, spawn.exe, Command(p, args), true)]
      ensures !r.success ==> processes == old(processes)
    {
      var screened := ValidateSecurity(p);
      if screened.Some? {
        return Failure(SecurityMessage(screened.value));
      }
      if !Exists(fs, p) {
        return Failure("指定されたファイルが見つかりません: " + p);
      }
      if !IsValidExecutable(p, fs) {
        return Failure("無効なファイル形式です: " + p);
      }
      r := LaunchOutcome(p, args, fs, spawn);
      if spawn.Spawned? {
        processes := processes + [ProcessEntry(spawn.pid, spawn.name, spawn.exe, Command(p, args), true)];
      }
    }
  }

  /** The started process runs the launched file itself, not an interpreter for it. */
  predicate RunsDirectly(spawn: SpawnOutcome, p: string)
  {
    spawn.Spawned? && spawn.exe == p
  }

  /** Appending a process that runs the launched path itself to any table makes some entry match that path. */
  lemma LaunchedIsRunning(procs: seq<ProcessEntry>, p: string, args: seq<string>, spawn: SpawnOutcome,
                           norm: string -> string)
    requires p != "" && RunsDirectly(spawn, p)
    ensures var table := procs + [ProcessEntry(spawn.pid, spawn.name, spawn.exe, Command(p, args), true)];
      exists i :: 0 <= i < |table| && Matches(table[i], p, norm)
  {
    var table := procs + [ProcessEntry(spawn.pid, spawn.name, spawn.exe, Command(p, args), true)];
    assert Matches(table[|procs|], p, norm);
  }

  /** The basename of `\` followed by a separator-free name is that name. */
  lemma {:induction false} AfterSepPrefix(b: string)
    requires forall k :: 0 <= k < |b| ==> !IsSep(b[k])
    ensures AfterLastSep("\\" + b) == b
  {
    if |b| > 0 {
      var init := b[..|b| - 1];
      AfterSepPrefix(init);
      assert ("\\" + b)[..|b|] == "\\" + init;
    }
  }

  /**
   * An example: `C:\b.bat` started as `cmd.exe` (executable `C:\cmd.exe`),
   * under the identity normalisation. Neither the name test nor the
   * executable test of `is_application_running` matches the batch file.
   */
  lemma BatchLaunchNotRunning()
    ensures var p := "C:\\b.bat";
      var spawn := Spawned(7, "cmd.exe", "C:\\cmd.exe");
      !Matches(ProcessEntry(spawn.pid, spawn.name, spawn.exe, [p], true), p, s => s)
  {
    var p := "C:\\b.bat";
    var b := "b.bat";
    assert StripDrive(p) == "\\" + b;
    AfterSepPrefix(b);
    assert Lower("cmd.exe")[0] == 'c' && Lower(b)[0] == 'b';
    assert Lower("C:\\cmd.exe")[3] == 'c' && Lower(p)[3] == 'b';
  }

  /**
   * A client of the table: a successful launch of a file the operating system
   * runs directly makes the application show as running.
   */
  method LaunchThenCheck(table: ProcessTable, p: string, args: seq<string>, fs: FileSystem, spawn: SpawnOutcome,
                         norm: string -> string)
    returns (r: LaunchResult, running: bool)
    modifies table
    ensures r.success && RunsDirectly(spawn, p) ==> running
  {
    ghost var before := table.processes;
    r := table.LaunchApplication(p, args, fs, spawn);
    if r.success && RunsDirectly(spawn, p) {
      LaunchedIsRunning(before, p, args, spawn, norm);
    }
    running := table.IsApplicationRunning(p, norm);
  }
}
