/**
 * The settings window: three tabs (application, appearance, general), each
 * holding tk variables, each with its own validation and its own part of
 * the configuration, and the window that validates them all, collects
 * their settings, merges them over the stored configuration and saves.
 *
 * A tk variable holds whatever value was last set into it; reading it back
 * with `get()` converts that value to the variable's type and can fail,
 * which raises an exception in tkinter. Whether a Tk root exists, which
 * decides whether the variables can be created, is a parameter.
 */
module SettingsWindow {
  import opened Text
  import opened Json
  import opened Paths
  import opened ConfigManager

  // ---------------------------------------------------------------------
  // tk variables

  /** `StringVar.get()`: text as set; an integer reads as its decimal text. */
  function StrGet(v: Json): Option<string>
  {
    match v
    case JStr(s) => Some(s)
    case JInt(n) => Some(IntToString(n))
    case _ => None
  }

  /** `IntVar.get()`: integers as they are, floats truncated. */
  function IntGet(v: Json): Option<int>
  {
    if IsInt(v) then Some(IntOf(v))
    else if v.JFloat? then Some(Truncate(v.r))
    else None
  }

  /** `DoubleVar.get()` */
  function RealGet(v: Json): Option<real>
  {
    if v.JFloat? then Some(v.r)
    else if IsInt(v) then Some(IntOf(v) as real)
    else None
  }

  /** `BooleanVar.get()` */
  function BoolGet(v: Json): Option<bool>
  {
    match v
    case JBool(b) => Some(b)
    case JInt(i) => Some(i != 0)
    case _ => None
  }

  /** `config.get(key, default)` */
  function GetOr(c: map<string, Json>, key: string, default: Json): Json
  {
    if key in c then c[key] else default
  }

  // ---------------------------------------------------------------------
  // The tabs

  datatype AppVars = AppVars(path: Json, name: Json, args: Json)
  datatype LookVars = LookVars(size: Json, x: Json, y: Json, opacity: Json)
  datatype GeneralVars = GeneralVars(autoStart: Json, showTray: Json, dragEnabled: Json)

  /** A tab and its variables; `None` when they could not be created (no Tk root yet). */
  datatype Tab =
    | ApplicationTab(app: Option<AppVars>)
    | AppearanceTab(look: Option<LookVars>)
    | GeneralTab(general: Option<GeneralVars>)

  predicate Initialized(t: Tab)
  {
    match t
    case ApplicationTab(v) => v.Some?
    case AppearanceTab(v) => v.Some?
    case GeneralTab(v) => v.Some?
  }

  /** `_initialize_vars`: the variables with their initial values, if a Tk root exists. */
  function InitVars(t: Tab, rootAvailable: bool): (r: Tab)
    ensures Initialized(r) <==> Initialized(t) || rootAvailable
  {
    if Initialized(t) || !rootAvailable then t
    else match t
      case ApplicationTab(_) => ApplicationTab(Some(AppVars(JStr(""), JStr(""), JStr(""))))
      case AppearanceTab(_) => AppearanceTab(Some(LookVars(JInt(32), JInt(100), JInt(100), JFloat(0.9))))
      case GeneralTab(_) => GeneralTab(Some(GeneralVars(JBool(false), JBool(true), JBool(true))))
  }

  /** The position an appearance tab falls back on when the configuration has none. */
  function DefaultPosition(): Json
  {
    JObject(map["x" := JInt(100), "y" := JInt(100)])
  }

  /** `ApplicationTab.load_settings`. */
  function AppLoad(c: map<string, Json>): (r: AppVars)
    ensures r.path == (if "app_path" in c then c["app_path"] else JStr(""))
    ensures r.name == (if "app_name" in c then c["app_name"] else JStr(""))
    ensures r.args == (if "app_args" in c then c["app_args"] else JStr(""))
  {
    AppVars(GetOr(c, "app_path", JStr("")), GetOr(c, "app_name", JStr("")), GetOr(c, "app_args", JStr("")))
  }

  /** `AppearanceTab.load_settings`: a position that is not a mapping leaves the coordinates alone. */
  function LookLoad(v: LookVars, c: map<string, Json>): (r: LookVars)
    ensures r.size == (if "icon_size" in c then c["icon_size"] else JInt(32))
    ensures r.opacity == (if "icon_opacity" in c then c["icon_opacity"] else JFloat(0.9))
    ensures "icon_position" !in c ==> r.x == JInt(100) && r.y == JInt(100)
    ensures "icon_position" in c && !c["icon_position"].JObject? ==> r.x == v.x && r.y == v.y
    ensures "icon_position" in c && c["icon_position"].JObject? ==>
      var pos := c["icon_position"].fields;
      && r.x == (if "x" in pos then pos["x"] else JInt(100))
      && r.y == (if "y" in pos then pos["y"] else JInt(100))
  {
    var pos := GetOr(c, "icon_position", DefaultPosition());
    var x := if pos.JObject? then GetOr(pos.fields, "x", JInt(100)) else v.x;
    var y := if pos.JObject? then GetOr(pos.fields, "y", JInt(100)) else v.y;
    LookVars(GetOr(c, "icon_size", JInt(32)), x, y, GetOr(c, "icon_opacity", JFloat(0.9)))
  }

  /** `GeneralTab.load_settings`. */
  function GeneralLoad(c: map<string, Json>): (r: GeneralVars)
    ensures r.autoStart == (if "auto_start" in c then c["auto_start"] else JBool(false))
    ensures r.showTray == (if "show_tray_icon" in c then c["show_tray_icon"] else JBool(true))
    ensures r.dragEnabled == (if "drag_enabled" in c then c["drag_enabled"] else JBool(true))
  {
    GeneralVars(GetOr(c, "auto_start", JBool(false)), GetOr(c, "show_tray_icon", JBool(true)),
                GetOr(c, "drag_enabled", JBool(true)))
  }

  /** Each tab's `load_settings`: its variables set from `c`, with the tab's defaults for missing keys. */
  function TabLoad(t: Tab, c: map<string, Json>, rootAvailable: bool): (r: Tab)
    ensures r.ApplicationTab? == t.ApplicationTab? && r.AppearanceTab? == t.AppearanceTab?
    ensures r.GeneralTab? == t.GeneralTab?
    ensures Initialized(r) <==> Initialized(t) || rootAvailable
  {
    match InitVars(t, rootAvailable)
    case ApplicationTab(None) => t
    case ApplicationTab(Some(_)) => ApplicationTab(Some(AppLoad(c)))
    case AppearanceTab(None) => t
    case AppearanceTab(Some(v)) => AppearanceTab(Some(LookLoad(v, c)))
    case GeneralTab(None) => t
    case GeneralTab(Some(_)) => GeneralTab(Some(GeneralLoad(c)))
  }

  function AppKeys(): set<string>
  {
    {"app_path", "app_name", "app_args"}
  }

  function LookKeys(): set<string>
  {
    {"icon_size", "icon_position", "icon_opacity"}
  }

  function GeneralKeys(): set<string>
  {
    {"auto_start", "show_tray_icon", "drag_enabled"}
  }

  /** `ApplicationTab.save_settings`; `None` is a variable whose `get()` raises. */
  function AppSave(v: AppVars): (r: Option<map<string, Json>>)
    ensures r.Some? ==> r.value.Keys == AppKeys()
  {
    match (StrGet(v.path), StrGet(v.name), StrGet(v.args))
    case (Some(p), Some(n), Some(a)) =>
      Some(map["app_path" := JStr(p), "app_name" := JStr(n), "app_args" := JStr(a)])
    case _ => None
  }

  /** `AppearanceTab.save_settings`. */
  function LookSave(v: LookVars): (r: Option<map<string, Json>>)
    ensures r.Some? ==> r.value.Keys == LookKeys()
  {
    match (IntGet(v.size), IntGet(v.x), IntGet(v.y), RealGet(v.opacity))
    case (Some(s), Some(x), Some(y), Some(o)) =>
      Some(map["icon_size" := JInt(s), "icon_position" := JObject(map["x" := JInt(x), "y" := JInt(y)]),
               "icon_opacity" := JFloat(o)])
    case _ => None
  }

  /** `GeneralTab.save_settings`. */
  function GeneralSave(v: GeneralVars): (r: Option<map<string, Json>>)
    ensures r.Some? ==> r.value.Keys == GeneralKeys()
  {
    match (BoolGet(v.autoStart), BoolGet(v.showTray), BoolGet(v.dragEnabled))
    case (Some(a), Some(s), Some(d)) =>
      Some(map["auto_start" := JBool(a), "show_tray_icon" := JBool(s), "drag_enabled" := JBool(d)])
    case _ => None
  }

  /** Each tab's `save_settings`; a tab without variables saves nothing. */
  function TabSave(t: Tab): (r: Option<map<string, Json>>)
    ensures !Initialized(t) ==> r == Some(map[])
  {
    match t
    case ApplicationTab(None) => Some(map[])
    case ApplicationTab(Some(v)) => AppSave(v)
    case AppearanceTab(None) => Some(map[])
    case AppearanceTab(Some(v)) => LookSave(v)
    case GeneralTab(None) => Some(map[])
    case GeneralTab(Some(v)) => GeneralSave(v)
  }

  /** Every entry of `m` is also an entry of `c`. */
  predicate Within(m: map<string, Json>, c: map<string, Json>)
  {
    forall k :: k in m ==> k in c && c[k] == m[k]
  }

  /** Loading what the application tab saved, and saving again, gives the same settings. */
  lemma AppRoundTrip(v: AppVars, c: map<string, Json>)
    requires AppSave(v).Some? && Within(AppSave(v).value, c)
    ensures AppSave(AppLoad(c)) == AppSave(v)
  {
    var s := AppSave(v).value;
    assert c["app_path"] == s["app_path"] && c["app_name"] == s["app_name"] && c["app_args"] == s["app_args"];
  }

  /** The same for the appearance tab, whose position is a nested mapping. */
  lemma LookRoundTrip(v: LookVars, c: map<string, Json>)
    requires LookSave(v).Some? && Within(LookSave(v).value, c)
    ensures LookSave(LookLoad(v, c)) == LookSave(v)
  {
    var s := LookSave(v).value;
    assert c["icon_size"] == s["icon_size"] && c["icon_position"] == s["icon_position"];
    assert c["icon_opacity"] == s["icon_opacity"];
  }

  /** The same for the general tab. */
  lemma GeneralRoundTrip(v: GeneralVars, c: map<string, Json>)
    requires GeneralSave(v).Some? && Within(GeneralSave(v).value, c)
    ensures GeneralSave(GeneralLoad(c)) == GeneralSave(v)
  {
    var s := GeneralSave(v).value;
    assert c["auto_start"] == s["auto_start"] && c["show_tray_icon"] == s["show_tray_icon"];
    assert c["drag_enabled"] == s["drag_enabled"];
  }

  /** Reading a tab's settings back in and saving again gives the same settings. */
  lemma TabRoundTrip(t: Tab, c: map<string, Json>, rootAvailable: bool)
    requires Initialized(t) && TabSave(t).Some?
    requires Within(TabSave(t).value, c)
    ensures TabSave(TabLoad(t, c, rootAvailable)) == TabSave(t)
  {
    match t
    case ApplicationTab(Some(v)) => AppRoundTrip(v, c);
    case AppearanceTab(Some(v)) => LookRoundTrip(v, c);
    case GeneralTab(Some(v)) => GeneralRoundTrip(v, c);
  }

  // ---------------------------------------------------------------------
  // Validation

  /** What a tab's `validate` does: passes, fails with a message, or raises. */
  datatype Check = Passed | Failed(message: string) | Raised

  const PathNotSet := "アプリケーションパスが設定されていません。"
  const PathAccepted := "有効なアプリケーションパスです。"
  const SizeOutOfRangeMessage := "アイコンサイズは16-128pxの範囲で指定してください。"
  const NegativePositionMessage := "アイコン位置は0以上で指定してください。"
  const OpacityOutOfRangeMessage := "不透明度は0.1-1.0の範囲で指定してください。"

  function PathMissing(p: string): string
  {
    "指定されたパスが存在しません: " + p
  }

  function NotAFile(p: string): string
  {
    "指定されたパスはファイルではありません: " + p
  }

  function NotExecutable(p: string): string
  {
    "実行可能ファイルではありません: " + p
  }

  /** The extensions the settings window accepts for the application to launch. */
  const ExecutableExtensions: set<string> := {".exe", ".bat", ".cmd", ".com"}

  /** The path checks after the blank test: it exists, is a file, and has an executable extension. */
  function PathChecks(p: string, fs: FileSystem): (r: Check)
    ensures r == Passed <==> IsFile(fs, p) && SplitExt(Lower(p)) in ExecutableExtensions
    ensures r != Raised && (r.Failed? ==> r.message != "")
    ensures !Exists(fs, p) ==> r == Failed(PathMissing(p))
  {
    if !Exists(fs, p) then Failed(PathMissing(p))
    else if !IsFile(fs, p) then Failed(NotAFile(p))
    else if SplitExt(Lower(p)) !in ExecutableExtensions then Failed(NotExecutable(p))
    else Passed
  }

  /** `ApplicationTab.validate_application_path`: the path as given, not stripped. */
  function ValidateApplicationPath(path: string, fs: FileSystem): (r: (bool, string))
    ensures r.0 <==> Strip(path) != "" && IsFile(fs, path) && SplitExt(Lower(path)) in ExecutableExtensions
    ensures r.0 ==> r.1 == PathAccepted
    ensures Strip(path) == "" ==> r == (false, PathNotSet)
    ensures Strip(path) != "" && !Exists(fs, path) ==> r == (false, PathMissing(path))
  {
    if Strip(path) == "" then (false, PathNotSet)
    else match PathChecks(path, fs)
      case Failed(m) => (false, m)
      case _ => (true, PathAccepted)
  }

  /** `AppearanceTab.validate`: size, then position, then opacity; the first failure is reported. */
  function AppearanceCheck(v: LookVars): (r: Check)
    ensures r == Passed <==>
      && IntGet(v.size).Some? && 16 <= IntGet(v.size).value <= 128
      && IntGet(v.x).Some? && IntGet(v.y).Some? && IntGet(v.x).value >= 0 && IntGet(v.y).value >= 0
      && RealGet(v.opacity).Some? && 0.1 <= RealGet(v.opacity).value <= 1.0
    ensures r == Failed(NegativePositionMessage) ==> IntGet(v.size).Some? && 16 <= IntGet(v.size).value <= 128
    ensures r == Failed(OpacityOutOfRangeMessage) ==>
      && IntGet(v.size).Some? && 16 <= IntGet(v.size).value <= 128
      && IntGet(v.x).Some? && IntGet(v.y).Some? && IntGet(v.x).value >= 0 && IntGet(v.y).value >= 0
    ensures r.Failed? ==> r.message in {SizeOutOfRangeMessage, NegativePositionMessage, OpacityOutOfRangeMessage}
    ensures IntGet(v.size).None? ==> r == Raised
    ensures IntGet(v.size).Some? && !(16 <= IntGet(v.size).value <= 128) ==> r == Failed(SizeOutOfRangeMessage)
    ensures IntGet(v.size).Some? && 16 <= IntGet(v.size).value <= 128 && (IntGet(v.x).None? || IntGet(v.y).None?) ==>
      r == Raised
    ensures
      && IntGet(v.size).Some? && 16 <= IntGet(v.size).value <= 128
      && IntGet(v.x).Some? && IntGet(v.y).Some? && (IntGet(v.x).value < 0 || IntGet(v.y).value < 0)
      ==> r == Failed(NegativePositionMessage)
    ensures
      && IntGet(v.size).Some? && 16 <= IntGet(v.size).value <= 128
      && IntGet(v.x).Some? && IntGet(v.y).Some? && IntGet(v.x).value >= 0 && IntGet(v.y).value >= 0
      && RealGet(v.opacity).None?
      ==> r == Raised
    ensures
      && IntGet(v.size).Some? && 16 <= IntGet(v.size).value <= 128
      && IntGet(v.x).Some? && IntGet(v.y).Some? && IntGet(v.x).value >= 0 && IntGet(v.y).value >= 0
      && RealGet(v.opacity).Some? && !(0.1 <= RealGet(v.opacity).value <= 1.0)
      ==> r == Failed(OpacityOutOfRangeMessage)
    ensures r == Raised ==>
      IntGet(v.size).None? || IntGet(v.x).None? || IntGet(v.y).None? || RealGet(v.opacity).None?
  {
    match IntGet(v.size)
    case None => Raised
    case Some(size) =>
      if size < 16 || size > 128 then Failed(SizeOutOfRangeMessage)
      else match (IntGet(v.x), IntGet(v.y))
        case (Some(x), Some(y)) =>
          if x < 0 || y < 0 then Failed(NegativePositionMessage)
          else (match RealGet(v.opacity)
            case None => Raised
            case Some(o) => if o < 0.1 || o > 1.0 then Failed(OpacityOutOfRangeMessage) else Passed)
        case _ => Raised
  }

  /** `ApplicationTab.validate`: the stripped path must be set, then pass the path checks. */
  function AppCheck(v: AppVars, fs: FileSystem): (r: Check)
    ensures r == Passed <==>
      (StrGet(v.path).Some? &&
       var p := Strip(StrGet(v.path).value);
       p != "" && IsFile(fs, p) && SplitExt(Lower(p)) in ExecutableExtensions)
    ensures r == Raised <==> StrGet(v.path).None?
    ensures r.Failed? ==> r.message != ""
  {
    match StrGet(v.path)
    case None => Raised
    case Some(raw) =>
      var p := Strip(raw);
      if p == "" then Failed(PathNotSet) else PathChecks(p, fs)
  }

  /** Each tab's `validate`; a tab without variables always passes. */
  function TabCheck(t: Tab, fs: FileSystem): (r: Check)
    ensures r.Failed? ==> r.message != ""
    ensures t.GeneralTab? || !Initialized(t) ==> r == Passed
  {
    match t
    case ApplicationTab(None) => Passed
    case ApplicationTab(Some(v)) => AppCheck(v, fs)
    case AppearanceTab(None) => Passed
    case AppearanceTab(Some(v)) => AppearanceCheck(v)
    case GeneralTab(_) => Passed
  }

  /**
   * The tab check and `validate_application_path` agree on a path with no
   * surrounding white space (the tab strips it first, the other does not).
   */
  lemma ApplicationChecksAgree(v: AppVars, p: string, fs: FileSystem)
    requires StrGet(v.path) == Some(p) && Strip(p) == p
    ensures TabCheck(ApplicationTab(Some(v)), fs) == Passed <==> ValidateApplicationPath(p, fs).0
  {
  }

  // ---------------------------------------------------------------------
  // The window's view of all tabs

  /** The message `validate_settings` keeps for one tab: its failure message, if it fails. */
  function Reported(t: Tab, fs: FileSystem): (r: seq<string>)
    ensures r == [] <==> !TabCheck(t, fs).Failed?
  {
    var c := TabCheck(t, fs);
    if c.Failed? && c.message != "" then [c.message] else []
  }

  /** The messages `f` gives for each element, concatenated in order. */
  function FlatMap<T>(ts: seq<T>, f: T -> seq<string>): seq<string>
  {
    if |ts| == 0 then [] else FlatMap(ts[..|ts| - 1], f) + f(ts[|ts| - 1])
  }

  lemma {:induction false} FlatMapAppend<T>(a: seq<T>, b: seq<T>, f: T -> seq<string>)
    ensures FlatMap(a + b, f) == FlatMap(a, f) + FlatMap(b, f)
    decreases |b|
  {
    if |b| == 0 {
      assert a + b == a;
    } else {
      var init := b[..|b| - 1];
      assert (a + b)[..|a + b| - 1] == a + init;
      assert (a + b)[|a + b| - 1] == b[|b| - 1];
      FlatMapAppend(a, init, f);
    }
  }

  lemma {:induction false} FlatMapEmpty<T>(ts: seq<T>, f: T -> seq<string>)
    ensures FlatMap(ts, f) == [] <==> forall i :: 0 <= i < |ts| ==> f(ts[i]) == []
    decreases |ts|
  {
    if |ts| > 0 {
      var init := ts[..|ts| - 1];
      FlatMapEmpty(init, f);
      assert forall i :: 0 <= i < |init| ==> init[i] == ts[i];
      if FlatMap(ts, f) == [] {
        assert |FlatMap(init, f)| + |f(ts[|ts| - 1])| == 0;
      }
    }
  }

  /** What `validate_settings` collects: one message per failing tab, in tab order; raising tabs are skipped. */
  function CollectErrors(ts: seq<Tab>, fs: FileSystem): seq<string>
  {
    FlatMap(ts, t => Reported(t, fs))
  }

  predicate FailsCheck(ts: seq<Tab>, fs: FileSystem, i: int)
    requires 0 <= i < |ts|
  {
    TabCheck(ts[i], fs).Failed?
  }

  /** The messages of two runs of tabs come out in order. */
  lemma CollectErrorsAppend(a: seq<Tab>, b: seq<Tab>, fs: FileSystem)
    ensures CollectErrors(a + b, fs) == CollectErrors(a, fs) + CollectErrors(b, fs)
  {
    FlatMapAppend(a, b, t => Reported(t, fs));
  }

  /** `validate_settings` reports no errors exactly when no tab fails. */
  lemma CollectErrorsEmpty(ts: seq<Tab>, fs: FileSystem)
    ensures CollectErrors(ts, fs) == [] <==> forall i :: 0 <= i < |ts| ==> !FailsCheck(ts, fs, i)
  {
    FlatMapEmpty(ts, t => Reported(t, fs));
    assert forall i :: 0 <= i < |ts| ==> (Reported(ts[i], fs) == [] <==> !FailsCheck(ts, fs, i));
  }

  /** Every tab passing means no errors; the converse fails for a tab that raises. */
  lemma AllPassNoErrors(ts: seq<Tab>, fs: FileSystem)
    requires AllPass(ts, fs)
    ensures CollectErrors(ts, fs) == []
  {
    CollectErrorsEmpty(ts, fs);
  }

  predicate AllPass(ts: seq<Tab>, fs: FileSystem)
  {
    forall i :: 0 <= i < |ts| ==> TabCheck(ts[i], fs) == Passed
  }

  /** Every tab's `save_settings`, in tab order; `None` when one of them raises. */
  function Saves(ts: seq<Tab>): (r: Option<seq<map<string, Json>>>)
    ensures r.None? <==> exists i :: 0 <= i < |ts| && TabSave(ts[i]).None?
    ensures r.Some? ==> |r.value| == |ts| && forall i :: 0 <= i < |ts| ==> Some(r.value[i]) == TabSave(ts[i])
  {
    if |ts| == 0 then Some([])
    else match (Saves(ts[..|ts| - 1]), TabSave(ts[|ts| - 1]))
      case (Some(ms), Some(m)) => Some(ms + [m])
      case _ => None
  }

  /** `dict.update` applied to each mapping in turn, starting from `{}`. */
  function MergeAll(ms: seq<map<string, Json>>): map<string, Json>
  {
    if |ms| == 0 then map[] else MergeAll(ms[..|ms| - 1]) + ms[|ms| - 1]
  }

  /** The tabs' settings merged in tab order; `None` if a tab raises. */
  function Collected(ts: seq<Tab>): Option<map<string, Json>>
  {
    match Saves(ts)
    case Some(ms) => Some(MergeAll(ms))
    case None => None
  }

  predicate HasKey(ms: seq<map<string, Json>>, i: int, k: string)
    requires 0 <= i < |ms|
  {
    k in ms[i]
  }

  /** A key of the merged mapping is exactly a key of one of the mappings merged. */
  lemma {:induction false} MergeKeys(ms: seq<map<string, Json>>, k: string)
    ensures k in MergeAll(ms) <==> exists i :: 0 <= i < |ms| && HasKey(ms, i, k)
  {
    if |ms| > 0 {
      var init := ms[..|ms| - 1];
      assert MergeAll(ms) == MergeAll(init) + ms[|ms| - 1];
      MergeKeys(init, k);
      if k in ms[|ms| - 1] {
        assert HasKey(ms, |ms| - 1, k);
      }
      if k in MergeAll(ms) && k !in ms[|ms| - 1] {
        var i :| 0 <= i < |init| && HasKey(init, i, k);
        assert HasKey(ms, i, k);
      }
      if exists i :: 0 <= i < |ms| && HasKey(ms, i, k) {
        var i :| 0 <= i < |ms| && HasKey(ms, i, k);
        if i < |init| {
          assert HasKey(init, i, k);
        }
      }
    }
  }

  /** A merged key takes its value from the last mapping that has it: later mappings win. */
  lemma {:induction false} MergeLastWins(ms: seq<map<string, Json>>, k: string, i: nat)
    requires i < |ms| && HasKey(ms, i, k)
    requires forall j :: i < j < |ms| ==> !HasKey(ms, j, k)
    ensures k in MergeAll(ms) && MergeAll(ms)[k] == ms[i][k]
  {
    var init := ms[..|ms| - 1];
    if i < |ms| - 1 {
      assert !HasKey(ms, |ms| - 1, k);
      assert forall j :: i < j < |init| ==> HasKey(init, j, k) == HasKey(ms, j, k);
      MergeLastWins(init, k, i);
    }
  }

  /** Each tab's `load_settings` applied to `c`, as `load_settings_to_ui` and `reset_to_defaults` do. */
  function LoadAll(ts: seq<Tab>, c: map<string, Json>, rootAvailable: bool): (r: seq<Tab>)
    ensures |r| == |ts| && forall i :: 0 <= i < |ts| ==> r[i] == TabLoad(ts[i], c, rootAvailable)
  {
    seq(|ts|, i requires 0 <= i < |ts| => TabLoad(ts[i], c, rootAvailable))
  }

  /** The three tabs the window creates, in this order. */
  predicate Shaped(ts: seq<Tab>)
  {
    |ts| == 3 && ts[0].ApplicationTab? && ts[1].AppearanceTab? && ts[2].GeneralTab?
  }

  /** The keys each of the three tabs saves. */
  lemma SavedKeysOfTabs(ts: seq<Tab>)
    requires Shaped(ts) && forall i :: 0 <= i < 3 ==> Initialized(ts[i]) && TabSave(ts[i]).Some?
    ensures TabSave(ts[0]).value.Keys == AppKeys()
    ensures TabSave(ts[1]).value.Keys == LookKeys()
    ensures TabSave(ts[2]).value.Keys == GeneralKeys()
  {
    assert Initialized(ts[0]) && Initialized(ts[1]) && Initialized(ts[2]);
  }

  lemma WithinDisjointMerge(a: map<string, Json>, b: map<string, Json>, g: map<string, Json>)
    requires a.Keys !! b.Keys && a.Keys !! g.Keys && b.Keys !! g.Keys
    ensures Within(a, a + b + g) && Within(b, a + b + g) && Within(g, a + b + g)
  {
  }

  /** Tabs loaded from a mapping that holds each tab's saved settings save the same again. */
  lemma ReloadedSaves(ts: seq<Tab>, c: map<string, Json>, rootAvailable: bool)
    requires forall i :: 0 <= i < |ts| ==> Initialized(ts[i]) && TabSave(ts[i]).Some? && Within(TabSave(ts[i]).value, c)
    ensures forall i :: 0 <= i < |ts| ==> TabSave(LoadAll(ts, c, rootAvailable)[i]) == TabSave(ts[i])
  {
    forall i | 0 <= i < |ts| ensures TabSave(LoadAll(ts, c, rootAvailable)[i]) == TabSave(ts[i]) {
      TabRoundTrip(ts[i], c, rootAvailable);
    }
  }

  lemma SavesOfThree(r: seq<Tab>, a: map<string, Json>, b: map<string, Json>, g: map<string, Json>)
    requires |r| == 3 && TabSave(r[0]) == Some(a) && TabSave(r[1]) == Some(b) && TabSave(r[2]) == Some(g)
    ensures Saves(r) == Some([a, b, g])
  {
    forall i | 0 <= i < |r| ensures TabSave(r[i]).Some? {
      assert i == 0 || i == 1 || i == 2;
    }
    var ms := Saves(r).value;
    assert Some(ms[0]) == TabSave(r[0]) && Some(ms[1]) == TabSave(r[1]) && Some(ms[2]) == TabSave(r[2]);
    assert ms == [a, b, g];
  }

  lemma MergeThree(a: map<string, Json>, b: map<string, Json>, g: map<string, Json>)
    ensures MergeAll([a, b, g]) == a + b + g
  {
    assert [a, b, g][..2] == [a, b] && [a, b][..1] == [a] && [a][..0] == [];
    assert MergeAll([a]) == map[] + a;
    assert map[] + a == a;
  }

  /** Three tabs that save `a`, `b` and `g` collect `a + b + g`: later tabs win on shared keys. */
  lemma CollectedOfThree(r: seq<Tab>, a: map<string, Json>, b: map<string, Json>, g: map<string, Json>)
    requires |r| == 3 && TabSave(r[0]) == Some(a) && TabSave(r[1]) == Some(b) && TabSave(r[2]) == Some(g)
    ensures Collected(r) == Some(a + b + g)
  {
    SavesOfThree(r, a, b, g);
    MergeThree(a, b, g);
  }

  /** Loading the window's current settings back into its tabs leaves the settings as they were. */
  lemma SettingsRoundTrip(ts: seq<Tab>, rootAvailable: bool)
    requires Shaped(ts) && (forall i :: 0 <= i < 3 ==> Initialized(ts[i])) && Collected(ts).Some?
    ensures Collected(LoadAll(ts, Collected(ts).value, rootAvailable)) == Collected(ts)
  {
    var ms := Saves(ts).value;
    var a, b, g := ms[0], ms[1], ms[2];
    CollectedOfThree(ts, a, b, g);
    var c := a + b + g;
    SavedKeysOfTabs(ts);
    WithinDisjointMerge(a, b, g);
    TabRoundTrip(ts[0], c, rootAvailable);
    TabRoundTrip(ts[1], c, rootAvailable);
    TabRoundTrip(ts[2], c, rootAvailable);
    var r := LoadAll(ts, c, rootAvailable);
    assert TabSave(r[0]) == Some(a) && TabSave(r[1]) == Some(b) && TabSave(r[2]) == Some(g);
    CollectedOfThree(r, a, b, g);
  }

  /**
   * After a reset the default configuration fills every tab that has its
   * variables, and only the empty application path is reported.
   */
  lemma ResetReportsOnlyMissingPath(ts: seq<Tab>, fs: FileSystem, rootAvailable: bool)
    requires Shaped(ts) && (rootAvailable || forall i :: 0 <= i < 3 ==> Initialized(ts[i]))
    ensures CollectErrors(LoadAll(ts, DefaultConfig(), rootAvailable), fs) == [PathNotSet]
  {
    var r := LoadAll(ts, DefaultConfig(), rootAvailable);
    ResetReported(ts[0], fs, rootAvailable);
    ResetReported(ts[1], fs, rootAvailable);
    ResetReported(ts[2], fs, rootAvailable);
    CollectErrorsThree(r, fs);
  }

  /** After a reset only the application tab reports, and it reports the missing path. */
  lemma ResetReported(t: Tab, fs: FileSystem, rootAvailable: bool)
    requires rootAvailable || Initialized(t)
    ensures Reported(TabLoad(t, DefaultConfig(), rootAvailable), fs) == (if t.ApplicationTab? then [PathNotSet] else [])
  {
    if t.ApplicationTab? {
      ResetApplicationTab(t, fs, rootAvailable);
    } else if t.AppearanceTab? {
      ResetAppearanceTab(t, rootAvailable);
    }
  }

  /** With three tabs, the messages are the three tabs' messages in order. */
  lemma CollectErrorsThree(ts: seq<Tab>, fs: FileSystem)
    requires |ts| == 3
    ensures CollectErrors(ts, fs) == Reported(ts[0], fs) + Reported(ts[1], fs) + Reported(ts[2], fs)
  {
    FlatMapThree(ts, t => Reported(t, fs));
  }

  lemma FlatMapThree<T>(ts: seq<T>, f: T -> seq<string>)
    requires |ts| == 3
    ensures FlatMap(ts, f) == f(ts[0]) + f(ts[1]) + f(ts[2])
  {
    var t1, t2 := ts[..1], ts[..2];
    assert t1[..0] == [] && t1[0] == ts[0];
    assert FlatMap(t1, f) == [] + f(ts[0]);
    assert [] + f(ts[0]) == f(ts[0]);
    assert t2[..1] == t1 && t2[1] == ts[1];
    assert ts[..2] == t2;
  }

  /** The default configuration's empty application path fails the application tab. */
  lemma ResetApplicationTab(t: Tab, fs: FileSystem, rootAvailable: bool)
    requires t.ApplicationTab? && (rootAvailable || Initialized(t))
    ensures TabCheck(TabLoad(t, DefaultConfig(), rootAvailable), fs) == Failed(PathNotSet)
  {
    var d := DefaultConfig();
    assert d["app_path"] == JStr("");
    assert Strip("") == "";
  }

  /** The default configuration passes the appearance checks. */
  lemma ResetAppearanceTab(t: Tab, rootAvailable: bool)
    requires t.AppearanceTab? && (rootAvailable || Initialized(t))
    ensures TabLoad(t, DefaultConfig(), rootAvailable).look == Some(LookVars(JInt(32), JInt(100), JInt(100), JFloat(0.9)))
    ensures AppearanceCheck(TabLoad(t, DefaultConfig(), rootAvailable).look.value) == Passed
  {
    var d := DefaultConfig();
    assert d["icon_size"] == JInt(32) && "icon_opacity" !in d;
    assert d["icon_position"] == DefaultPosition();
  }

  /** An identifier for a registered callback. */
  datatype Callback = Callback(id: nat)

  /**
   * Whether `load_config` raises for this state of the store: the live
   * document, or the backup recovery restores, is not a JSON object.
   */
  predicate LoadRaises(live: Option<StoredFile>, backups: seq<BackupFile>, ioFails: bool)
  {
    && !ioFails && live.Some?
    && (|| (live.value.content.Parsed? && !live.value.content.doc.JObject?)
        || (live.value.content.Malformed? && UniqueNames(backups) && LatestRestorable(backups).Some?
            && LatestRestorable(backups).value.content.Parsed?
            && !LatestRestorable(backups).value.content.doc.JObject?))
  }

  class SettingsWindow {
    const store: ConfigStore
    var tabs: seq<Tab>
    var callbacks: map<string, Callback>

    ghost predicate Valid()
      reads this, store
    {
      store.Valid() && Shaped(tabs)
    }

    /** `__init__` and `_init_tabs` */
    constructor(store: ConfigStore, rootAvailable: bool)
      requires store.Valid()
      ensures Valid() && this.store == store && callbacks == map[]
      ensures tabs == [InitVars(ApplicationTab(None), rootAvailable), InitVars(AppearanceTab(None), rootAvailable),
                       InitVars(GeneralTab(None), rootAvailable)]
    {
      this.store := store;
      tabs := [InitVars(ApplicationTab(None), rootAvailable), InitVars(AppearanceTab(None), rootAvailable),
               InitVars(GeneralTab(None), rootAvailable)];
      callbacks := map[];
    }

    method SetCallback(event: string, cb: Callback)
      requires Valid()
      modifies this
      ensures Valid() && callbacks == old(callbacks)[event := cb] && tabs == old(tabs)
    {
      callbacks := callbacks[event := cb];
    }

    /** `validate_settings` */
    method ValidateSettings(fs: FileSystem) returns (valid: bool, errors: seq<string>)
      ensures errors == CollectErrors(tabs, fs)
      ensures valid <==> forall i :: 0 <= i < |tabs| ==> !FailsCheck(tabs, fs, i)
    {
      errors := [];
      var i := 0;
      while i < |tabs|
        invariant 0 <= i <= |tabs|
        invariant errors == CollectErrors(tabs[..i], fs)
      {
        var c := TabCheck(tabs[i], fs);
        if c.Failed? && c.message != "" {
          errors := errors + [c.message];
        }
        assert tabs[..i + 1][..i] == tabs[..i];
        i := i + 1;
      }
      assert tabs[..i] == tabs;
      CollectErrorsEmpty(tabs, fs);
      valid := |errors| == 0;
    }

    /** The loop `get_current_settings` and `apply_settings` share: each tab's settings merged in. */
    method SaveAll() returns (r: Option<map<string, Json>>)
      ensures r == Collected(tabs)
    {
      var config: map<string, Json> := map[];
      ghost var ms: seq<map<string, Json>> := [];
      for i := 0 to |tabs|
        invariant Saves(tabs[..i]) == Some(ms) && config == MergeAll(ms)
      {
        assert tabs[..i + 1][..i] == tabs[..i];
        var s := TabSave(tabs[i]);
        if s.None? {
          return None;
        }
        config := config + s.value;
        assert (ms + [s.value])[..i] == ms;
        ms := ms + [s.value];
      }
      assert tabs[..|tabs|] == tabs;
      return Some(config);
    }

    /** `get_current_settings`: the merged settings, or `{}` when a tab raises. */
    method GetCurrentSettings() returns (r: map<string, Json>)
      ensures Collected(tabs).Some? ==> r == Collected(tabs).value
      ensures Collected(tabs).None? ==> r == map[]
    {
      var all := SaveAll();
      r := if all.Some? then all.value else map[];
    }

    /** Every tab's `load_settings` with `c`. */
    method LoadAllTabs(c: map<string, Json>, rootAvailable: bool)
      requires Valid()
      modifies this
      ensures Valid() && tabs == LoadAll(old(tabs), c, rootAvailable) && callbacks == old(callbacks)
    {
      ghost var before := tabs;
      for i := 0 to |tabs|
        invariant |tabs| == |before|
        invariant forall j :: 0 <= j < i ==> tabs[j] == TabLoad(before[j], c, rootAvailable)
        invariant forall j :: i <= j < |tabs| ==> tabs[j] == before[j]
        invariant callbacks == old(callbacks)
      {
        tabs := tabs[i := TabLoad(tabs[i], c, rootAvailable)];
      }
    }

    /** `reset_to_defaults`: the default configuration loaded into every tab. */
    method ResetToDefaults(rootAvailable: bool) returns (ok: bool)
      requires Valid()
      modifies this
      ensures Valid() && ok && callbacks == old(callbacks)
      ensures tabs == LoadAll(old(tabs), DefaultConfig(), rootAvailable)
    {
      LoadAllTabs(DefaultConfig(), rootAvailable);
      return true;
    }

    /**
     * `load_settings_to_ui`: the given configuration, or else the stored one,
     * loaded into every tab; a `load_config` that raises leaves the tabs alone.
     */
    method LoadSettingsToUi(config: Option<map<string, Json>>, now: Clock, rootAvailable: bool)
      requires Valid()
      modifies this, store
      ensures Valid() && callbacks == old(callbacks)
      ensures config.Some? ==> tabs == LoadAll(old(tabs), config.value, rootAvailable)
      ensures config.Some? ==> store.live == old(store.live) && store.backups == old(store.backups)
      ensures config.None? ==>
        tabs == match LoadedView(old(store.live), old(store.backups), store.ioFails)
          case Loaded(c) => LoadAll(old(tabs), c, rootAvailable)
          case NotAnObject => old(tabs)
      ensures config.None? ==>
        (store.live, store.backups) == LoadedStore(old(store.live), old(store.backups), store.ioFails, now)
    {
      var c: map<string, Json>;
      if config.Some? {
        c := config.value;
      } else {
        var loaded := store.LoadConfig(now);
        if loaded.NotAnObject? {
          return;
        }
        c := loaded.config;
      }
      LoadAllTabs(c, rootAvailable);
    }

    /** The validation loop of `apply_settings`: stops at the first tab that does not pass. */
    method CheckTabs(fs: FileSystem) returns (pass: bool)
      ensures pass <==> AllPass(tabs, fs)
    {
      var i := 0;
      while i < |tabs| && TabCheck(tabs[i], fs) == Passed
        invariant 0 <= i <= |tabs|
        invariant forall j :: 0 <= j < i ==> TabCheck(tabs[j], fs) == Passed
      {
        i := i + 1;
      }
      pass := i == |tabs|;
    }

    /**
     * The save step of `apply_settings`: the stored configuration updated
     * with `config` and saved; `None` when `load_config` raises.
     */
    method StoreSettings(config: map<string, Json>, loadTime: Clock, saveTime: Clock)
      returns (written: Option<map<string, Json>>)
      requires Valid()
      modifies store
      ensures Valid()
      ensures written.Some? <==> !LoadRaises(old(store.live), old(store.backups), store.ioFails)
      ensures written == match LoadedView(old(store.live), old(store.backups), store.ioFails)
        case Loaded(c) => Some(c + config)
        case NotAnObject => None
      ensures written.Some? ==> forall k :: k in config ==> k in written.value && written.value[k] == config[k]
      ensures written.Some? ==>
        var loaded := LoadedStore(old(store.live), old(store.backups), store.ioFails, loadTime);
        (store.live, store.backups) == SavedStore(loaded.0, loaded.1, written.value, store.ioFails, saveTime)
      ensures written.None? ==>
        (store.live, store.backups) == LoadedStore(old(store.live), old(store.backups), store.ioFails, loadTime)
    {
      var loaded := store.LoadConfig(loadTime);
      if loaded.NotAnObject? {
        return None;
      }
      var current := loaded.config + config;
      written := Some(current);
      var _ := store.SaveConfig(current, saveTime);
    }

    /**
     * `apply_settings`: at the first tab that fails or raises, nothing is
     * saved and the result is false. Otherwise the merged settings are laid
     * over the stored configuration and saved (`written`), and the result
     * is true whether or not the save succeeded, unless the `apply`
     * callback raises.
     */
    method ApplySettings(fs: FileSystem, loadTime: Clock, saveTime: Clock, callbackRaises: bool)
      returns (ok: bool, written: Option<map<string, Json>>)
      requires Valid()
      modifies store
      ensures Valid()
      ensures written.Some? <==>
        AllPass(tabs, fs) && Collected(tabs).Some? && !LoadRaises(old(store.live), old(store.backups), store.ioFails)
      ensures ok <==> written.Some? && !("apply" in callbacks && callbackRaises)
      ensures !AllPass(tabs, fs) || Collected(tabs).None? ==>
        store.live == old(store.live) && store.backups == old(store.backups)
      ensures AllPass(tabs, fs) && Collected(tabs).Some? ==>
        written == match LoadedView(old(store.live), old(store.backups), store.ioFails)
          case Loaded(c) => Some(c + Collected(tabs).value)
          case NotAnObject => None
      ensures written.Some? ==> forall k :: k in Collected(tabs).value ==>
        k in written.value && written.value[k] == Collected(tabs).value[k]
      ensures written.Some? ==>
        var loaded := LoadedStore(old(store.live), old(store.backups), store.ioFails, loadTime);
        (store.live, store.backups) == SavedStore(loaded.0, loaded.1, written.value, store.ioFails, saveTime)
      ensures AllPass(tabs, fs) && Collected(tabs).Some? && written.None? ==>
        (store.live, store.backups) == LoadedStore(old(store.live), old(store.backups), store.ioFails, loadTime)
      ensures written.Some? && BasicValid(written.value) && !store.ioFails ==>
        store.live == Some(SavedFile(written.value, saveTime, BackupCount(store.backups)))
    {
      var pass := CheckTabs(fs);
      if !pass {
        return false, None;
      }
      var collected := SaveAll();
      if collected.None? {
        return false, None;
      }
      written := StoreSettings(collected.value, loadTime, saveTime);
      ok := written.Some? && !("apply" in callbacks && callbackRaises);
    }
  }
}
