/**
 * Starting the launcher with Windows: the value under the application's
 * name in the current user's `Run` registry key. The key is a map from
 * value name to command line; each registry call may fail, and the text of
 * its exception is passed in as an optional fault.
 */
module AutoStartup {
  import opened Text
  import opened Paths

  const StartupKey: string := "Software\\Microsoft\\Windows\\CurrentVersion\\Run"

  const Unsupported: string := "Windowsでのみサポートされています"

  /** `AutoStartupInfo` */
  datatype AutoStartupInfo = AutoStartupInfo(
    enabled: bool,
    appName: string,
    appPath: string,
    registryKey: string,
    error: Option<string>)

  /**
   * What the interpreter reports about how it was started: whether it is a
   * packaged build (`sys._MEIPASS`), `sys.executable`, and `sys.argv[0]`
   * (`""` when `sys.argv` is empty or its first entry is empty).
   */
  datatype Runtime = Runtime(frozen: bool, executable: string, argv0: string)

  /** The command line that starts a script through the interpreter. */
  function ScriptCommand(python: string, script: string): string
  {
    "\"" + python + "\" \"" + script + "\""
  }

  /** `_get_current_executable_path`; `abspath` is `os.path.abspath`. */
  function CurrentExecutablePath(rt: Runtime, abspath: string -> string): (r: string)
    ensures rt.frozen || rt.argv0 == "" ==> r == rt.executable
    ensures !rt.frozen && rt.argv0 != "" && EndsWith(abspath(rt.argv0), ".py") ==>
      r == ScriptCommand(rt.executable, abspath(rt.argv0))
    ensures !rt.frozen && rt.argv0 != "" && !EndsWith(abspath(rt.argv0), ".py") ==> r == abspath(rt.argv0)
  {
    if rt.frozen then rt.executable
    else if rt.argv0 != "" then
      var script := abspath(rt.argv0);
      if EndsWith(script, ".py") then ScriptCommand(rt.executable, script) else script
    else rt.executable
  }

  /** The separator between the two quoted parts of a script command line. */
  const QuoteSep: string := "\" \""

  /** `validate_path` */
  function ValidatePath(p: string, fs: FileSystem): (r: (bool, Option<string>))
    ensures r.0 <==> r.1.None?
    ensures p == "" ==> r == (false, Some("パスが空です"))
    ensures p != "" && !(StartsWith(p, "\"") && Contains(p, QuoteSep)) ==>
      (r.0 <==> IsFile(fs, p))
  {
    if p == "" then (false, Some("パスが空です"))
    else if StartsWith(p, "\"") && Contains(p, QuoteSep) then
      var i := Find(p, QuoteSep).value;
      var python := StripChar(p[..i], '"');
      var script := StripChar(p[i + 3..], '"');
      if !Exists(fs, python) then (false, Some("Python実行ファイルが見つかりません: " + python))
      else if !Exists(fs, script) then (false, Some("スクリプトファイルが見つかりません: " + script))
      else (true, None)
    else if !Exists(fs, p) then (false, Some("ファイルが見つかりません: " + p))
    else if !IsFile(fs, p) then (false, Some("指定されたパスはファイルではありません: " + p))
    else (true, None)
  }

  lemma StripQuoteFront(s: string)
    requires '"' !in s
    ensures StripChar("\"" + s, '"') == s
  {
    assert ("\"" + s)[1..] == s;
    StripCharNoop(s, '"');
  }

  lemma StripQuoteBack(s: string)
    requires '"' !in s
    ensures StripChar(s + "\"", '"') == s
  {
    var t := s + "\"";
    assert t[..|t| - 1] == s;
    StripCharNoop(s, '"');
  }

  /** No separator starts inside the quoted interpreter path. */
  lemma NoEarlierSep(python: string, script: string, j: nat)
    requires '"' !in python && (python == "" || python[0] != ' ')
    requires j < |python| + 1
    ensures !OccursAt(ScriptCommand(python, script), QuoteSep, j)
  {
    var c := ScriptCommand(python, script);
    if j == 0 {
      assert c[1] == (if python == "" then '"' else python[0]);
    } else {
      assert c[j] == python[j - 1];
    }
  }

  /** The first separator in a script command line is the one after the interpreter. */
  lemma ScriptCommandSplit(python: string, script: string)
    requires '"' !in python && (python == "" || python[0] != ' ')
    ensures Find(ScriptCommand(python, script), QuoteSep) == Some(|python| + 1)
  {
    var c := ScriptCommand(python, script);
    var k := |python| + 1;
    assert c[k..k + 3] == QuoteSep;
    forall j | 0 <= j < k
      ensures !OccursAt(c, QuoteSep, j)
    {
      NoEarlierSep(python, script, j);
    }
    FindFirst(c, QuoteSep, k);
  }

  /**
   * The command line registered for a script validates exactly when both
   * the interpreter and the script exist.
   */
  lemma ScriptCommandValidates(python: string, script: string, fs: FileSystem)
    requires '"' !in python && '"' !in script && (python == "" || python[0] != ' ')
    ensures ValidatePath(ScriptCommand(python, script), fs).0 <==> Exists(fs, python) && Exists(fs, script)
  {
    var c := ScriptCommand(python, script);
    ScriptCommandSplit(python, script);
    var i := |python| + 1;
    assert c[..i] == "\"" + python;
    assert c[i + 3..] == script + "\"";
    StripQuoteFront(python);
    StripQuoteBack(script);
    assert StartsWith(c, "\"");
  }

  /** The error texts of the registry operations, around the exception's text. */
  function AccessFailure(text: string): string
  {
    "レジストリアクセスエラー: " + text
  }

  function EnableFailure(text: string): string
  {
    "自動起動の有効化に失敗: " + text
  }

  function DisableFailure(text: string): string
  {
    "自動起動の無効化に失敗: " + text
  }

  /** The registry's `Run` key of the current user. */
  class Registry {
    var run: map<string, string>

    constructor(values: map<string, string>)
      ensures run == values
    {
      run := values;
    }
  }

  /** The value under `name` is present and names `path`. */
  predicate EnabledIn(run: map<string, string>, name: string, path: string): (r: bool)
    ensures name !in run ==> !r
    ensures name in run ==> (r <==> run[name] == path)
  {
    name in run && run[name] == path
  }

  /**
   * The `Run` key after a fault-free `toggle`: an enabled entry is removed,
   * and a missing or stale one is written; no other value changes.
   */
  function Toggled(run: map<string, string>, name: string, path: string): (r: map<string, string>)
    ensures EnabledIn(r, name, path) <==> !EnabledIn(run, name, path)
    ensures forall k :: k != name ==> (k in r <==> k in run) && (k in r ==> r[k] == run[k])
  {
    if EnabledIn(run, name, path) then run - {name} else run[name := path]
  }

  /** `WindowsAutoStartup` */
  class WindowsAutoStartup {
    const appName: string
    const appPath: string
    const registry: Registry

    constructor(appName: string, rt: Runtime, abspath: string -> string, registry: Registry)
      ensures this.appName == appName && this.registry == registry
      ensures appPath == CurrentExecutablePath(rt, abspath)
    {
      this.appName := appName;
      this.appPath := CurrentExecutablePath(rt, abspath);
      this.registry := registry;
    }

    /** `is_enabled`; `fault` is the text of an exception from opening the key. */
    method IsEnabled(fault: Option<string>) returns (enabled: bool, error: Option<string>)
      ensures fault.Some? ==> !enabled && error == Some(AccessFailure(fault.value))
      ensures fault.None? ==> error.None? && (enabled <==> EnabledIn(registry.run, appName, appPath))
    {
      if fault.Some? {
        return false, Some(AccessFailure(fault.value));
      }
      enabled := appName in registry.run && registry.run[appName] == appPath;
      error := None;
    }

    /** `enable`: store the command line under the application's name. */
    method Enable(fault: Option<string>) returns (success: bool, error: Option<string>)
      modifies registry
      ensures success <==> fault.None?
      ensures fault.None? ==> error.None? && registry.run == old(registry.run)[appName := appPath]
      ensures fault.Some? ==> error == Some(EnableFailure(fault.value)) && registry.run == old(registry.run)
    {
      if fault.Some? {
        return false, Some(EnableFailure(fault.value));
      }
      registry.run := registry.run[appName := appPath];
      return true, None;
    }

    /** `disable`: remove the value; one that is already absent counts as removed. */
    method Disable(fault: Option<string>) returns (success: bool, error: Option<string>)
      modifies registry
      ensures success <==> fault.None?
      ensures fault.None? ==> error.None? && registry.run == old(registry.run) - {appName}
      ensures fault.Some? ==> error == Some(DisableFailure(fault.value)) && registry.run == old(registry.run)
    {
      if fault.Some? {
        return false, Some(DisableFailure(fault.value));
      }
      registry.run := registry.run - {appName};
      return true, None;
    }

    /** `get_info` */
    method GetInfo(fault: Option<string>) returns (info: AutoStartupInfo)
      ensures info.appName == appName && info.appPath == appPath && info.registryKey == StartupKey
      ensures fault.Some? ==> !info.enabled && info.error == Some(AccessFailure(fault.value))
      ensures fault.None? ==> info.error.None? && (info.enabled <==> EnabledIn(registry.run, appName, appPath))
    {
      var enabled, error := IsEnabled(fault);
      info := AutoStartupInfo(enabled, appName, appPath, StartupKey, error);
    }

    /**
     * `toggle`: a read error is reported with nothing written; otherwise an
     * enabled entry is removed and a missing or stale one is written.
     */
    method Toggle(readFault: Option<string>, writeFault: Option<string>)
      returns (success: bool, newState: bool, error: Option<string>)
      modifies registry
      ensures readFault.Some? ==>
        !success && !newState && error == Some(AccessFailure(readFault.value))
        && registry.run == old(registry.run)
      ensures readFault.None? ==>
        (newState <==> !EnabledIn(old(registry.run), appName, appPath)) && (success <==> writeFault.None?)
      ensures readFault.None? && writeFault.None? ==>
        error.None? && registry.run == Toggled(old(registry.run), appName, appPath)
      ensures readFault.None? && writeFault.Some? ==>
        error == Some(if newState then EnableFailure(writeFault.value) else DisableFailure(writeFault.value))
      ensures writeFault.Some? ==> registry.run == old(registry.run)
    {
      var enabled, readError := IsEnabled(readFault);
      if readError.Some? {
        return false, false, readError;
      }
      if enabled {
        success, error := Disable(writeFault);
        newState := false;
      } else {
        success, error := Enable(writeFault);
        newState := true;
      }
    }
  }

  /** Two toggles with no faults give back the original enabled state. */
  method ToggleTwice(s: WindowsAutoStartup) returns (first: bool, second: bool)
    modifies s.registry
    ensures first == !EnabledIn(old(s.registry.run), s.appName, s.appPath)
    ensures second == !first
    ensures EnabledIn(s.registry.run, s.appName, s.appPath) == EnabledIn(old(s.registry.run), s.appName, s.appPath)
  {
    var _, n1, _ := s.Toggle(None, None);
    var _, n2, _ := s.Toggle(None, None);
    first, second := n1, n2;
  }

  /** `AutoStartupManager`; `supported` is whether the system is Windows. */
  class AutoStartupManager {
    const appName: string
    const supported: bool
    const startup: WindowsAutoStartup

    constructor(appName: string, supported: bool, rt: Runtime, abspath: string -> string, registry: Registry)
      ensures this.appName == appName && this.supported == supported
      ensures startup.appName == appName && startup.registry == registry
      ensures startup.appPath == CurrentExecutablePath(rt, abspath)
    {
      this.appName := appName;
      this.supported := supported;
      this.startup := new WindowsAutoStartup(appName, rt, abspath, registry);
    }

    /** `get_status` */
    method GetStatus(fault: Option<string>) returns (info: AutoStartupInfo)
      ensures !supported ==> info == AutoStartupInfo(false, appName, "", "", Some(Unsupported))
      ensures supported ==>
        info.appName == startup.appName && info.appPath == startup.appPath && info.registryKey == StartupKey
      ensures supported && fault.Some? ==> !info.enabled && info.error == Some(AccessFailure(fault.value))
      ensures supported && fault.None? ==>
        info.error.None? && (info.enabled <==> EnabledIn(startup.registry.run, startup.appName, startup.appPath))
    {
      if !supported {
        return AutoStartupInfo(false, appName, "", "", Some(Unsupported));
      }
      info := startup.GetInfo(fault);
    }

    /** `set_enabled`: nothing is written when the state already matches. */
    method SetEnabled(enabled: bool, readFault: Option<string>, writeFault: Option<string>)
      returns (success: bool, error: Option<string>)
      modifies startup.registry
      ensures !supported ==> !success && error == Some(Unsupported) && startup.registry.run == old(startup.registry.run)
      ensures supported && readFault.Some? ==>
        !success && error == Some(AccessFailure(readFault.value))
        && startup.registry.run == old(startup.registry.run)
      ensures supported && readFault.None? && EnabledIn(old(startup.registry.run), startup.appName, startup.appPath) == enabled ==>
        success && error.None? && startup.registry.run == old(startup.registry.run)
      ensures supported && readFault.None? && EnabledIn(old(startup.registry.run), startup.appName, startup.appPath) != enabled ==>
        (success <==> writeFault.None?)
        && (writeFault.None? ==>
              startup.registry.run == (if enabled then old(startup.registry.run)[startup.appName := startup.appPath]
                                       else old(startup.registry.run) - {startup.appName}))
        && (writeFault.Some? ==> startup.registry.run == old(startup.registry.run))
      ensures supported && readFault.None? && success ==>
        EnabledIn(startup.registry.run, startup.appName, startup.appPath) == enabled
    {
      if !supported {
        return false, Some(Unsupported);
      }
      var current, readError := startup.IsEnabled(readFault);
      if readError.Some? {
        return false, readError;
      }
      if current == enabled {
        return true, None;
      }
      if enabled {
        success, error := startup.Enable(writeFault);
      } else {
        success, error := startup.Disable(writeFault);
      }
    }

    /** `toggle_startup` */
    method ToggleStartup(readFault: Option<string>, writeFault: Option<string>)
      returns (success: bool, newState: bool, error: Option<string>)
      modifies startup.registry
      ensures !supported ==>
        !success && !newState && error == Some(Unsupported) && startup.registry.run == old(startup.registry.run)
      ensures supported && readFault.None? ==>
        (newState <==> !EnabledIn(old(startup.registry.run), startup.appName, startup.appPath))
        && (success <==> writeFault.None?)
      ensures supported && readFault.Some? ==>
        !success && !newState && error == Some(AccessFailure(readFault.value))
        && startup.registry.run == old(startup.registry.run)
      ensures supported && readFault.None? && writeFault.None? ==>
        error.None? && startup.registry.run == Toggled(old(startup.registry.run), startup.appName, startup.appPath)
      ensures supported && writeFault.Some? ==> startup.registry.run == old(startup.registry.run)
    {
      if !supported {
        return false, false, Some(Unsupported);
      }
      success, newState, error := startup.Toggle(readFault, writeFault);
    }

    /**
     * `validate_installation`: the application's own command line
     * (`info.app_path`, computed at start-up, not the value stored under the
     * `Run` key) is checked against the file system.
     */
    method ValidateInstallation(fault: Option<string>, fs: FileSystem) returns (ok: bool, error: Option<string>)
      ensures !supported ==> !ok && error == Some(Unsupported)
      ensures supported && fault.Some? ==> !ok && error == Some(AccessFailure(fault.value))
      ensures supported && fault.None? ==> (ok, error) == ValidatePath(startup.appPath, fs)
    {
      if !supported {
        return false, Some(Unsupported);
      }
      var info := startup.GetInfo(fault);
      if info.error.Some? {
        return false, info.error;
      }
      var r := ValidatePath(info.appPath, fs);
      ok, error := r.0, r.1;
    }

    /**
     * `repair_startup`: an enabled entry is removed and written again. A
     * state that cannot be read reads as disabled, so it needs no repair.
     */
    method RepairStartup(readFault: Option<string>, disableFault: Option<string>, enableFault: Option<string>)
      returns (success: bool, message: Option<string>)
      modifies startup.registry
      ensures !supported ==> !success && message == Some(Unsupported) && startup.registry.run == old(startup.registry.run)
      ensures supported && (readFault.Some? || !EnabledIn(old(startup.registry.run), startup.appName, startup.appPath)) ==>
        success && message == Some("修復の必要はありません") && startup.registry.run == old(startup.registry.run)
      ensures supported && readFault.None? && EnabledIn(old(startup.registry.run), startup.appName, startup.appPath) ==>
        && (disableFault.Some? ==> !success && message == Some("無効化に失敗: " + DisableFailure(disableFault.value))
                                   && startup.registry.run == old(startup.registry.run))
        && (disableFault.None? && enableFault.Some? ==>
              !success && message == Some("再有効化に失敗: " + EnableFailure(enableFault.value))
              && startup.registry.run == old(startup.registry.run) - {startup.appName})
        && (disableFault.None? && enableFault.None? ==>
              success && message == Some("自動起動設定を修復しました") && startup.registry.run == old(startup.registry.run))
    {
      if !supported {
        return false, Some(Unsupported);
      }
      var info := GetStatus(readFault);
      if !info.enabled {
        return true, Some("修復の必要はありません");
      }
      var ok, error := startup.Disable(disableFault);
      if !ok {
        return false, Some("無効化に失敗: " + error.value);
      }
      ok, error := startup.Enable(enableFault);
      if !ok {
        return false, Some("再有効化に失敗: " + error.value);
      }
      return true, Some("自動起動設定を修復しました");
    }
  }
}
