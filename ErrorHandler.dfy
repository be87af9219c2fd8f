/**
 * Error handling: the bounded error and notification histories, the
 * per-key recovery state machine, the message and title tables, and the
 * global handler that logs, tries recovery and decides whether to show a
 * dialog. Log output, exceptions and message boxes are modelled by what
 * they leave behind: history entries and the dialogs put on screen.
 */
module ErrorHandler {
  import opened Text

  datatype ErrorLevel = Debug | Info | Warning | Error | Critical

  datatype ErrorCategory = System | FileIo | Network | Ui | Config | Application | Permission | Resource

  /** The enum's `.value`. */
  function CategoryValue(c: ErrorCategory): string
  {
    match c
    case System => "SYSTEM"
    case FileIo => "FILE_IO"
    case Network => "NETWORK"
    case Ui => "UI"
    case Config => "CONFIG"
    case Application => "APPLICATION"
    case Permission => "PERMISSION"
    case Resource => "RESOURCE"
  }

  /** `ErrorInfo` without its exception object, timestamp and context. */
  datatype ErrorInfo = ErrorInfo(
    level: ErrorLevel,
    category: ErrorCategory,
    message: string,
    details: Option<string>,
    suggestion: Option<string>,
    recoveryAction: Option<string>)

  function Plain(level: ErrorLevel, category: ErrorCategory, message: string): ErrorInfo
  {
    ErrorInfo(level, category, message, None, None, None)
  }

  /** Python truthiness of an optional string: present and non-empty. */
  predicate Truthy(s: Option<string>)
  {
    s.Some? && s.value != ""
  }

  // ---------------------------------------------------------------------
  // Bounded histories

  /** The last `n` entries of `s` (all of `s` when it is shorter). */
  function Recent<T>(s: seq<T>, n: nat): (r: seq<T>)
    ensures |r| == (if |s| < n then |s| else n)
    ensures |r| <= |s| && r == s[|s| - |r|..]
  {
    if |s| <= n then s else s[|s| - n..]
  }

  /**
   * Appending to a history that is already the last `n` entries, then
   * dropping the oldest, keeps it the last `n` entries.
   */
  lemma RecentAppend<T>(s: seq<T>, e: T, n: nat)
    requires n > 0
    ensures Recent(Recent(s, n) + [e], n) == Recent(s + [e], n)
  {
    var t := Recent(s, n) + [e];
    var u := s + [e];
    assert t == u[|u| - |t|..];
    assert Recent(t, n) == u[|u| - |Recent(t, n)|..];
  }

  /** `s[start:]` for a possibly negative Python index. */
  function PySliceFrom<T>(s: seq<T>, start: int): (r: seq<T>)
    ensures |r| <= |s| && r == s[|s| - |r|..]
    ensures start >= 0 ==> |r| == (if start <= |s| then |s| - start else 0)
    ensures start < 0 ==> |r| == (if -start <= |s| then -start else |s|)
  {
    if start >= 0 then (if start <= |s| then s[start..] else [])
    else if -start <= |s| then s[|s| + start..]
    else s
  }

  /** An error history of at most `maxHistory` entries, oldest first. */
  class ErrorLogger {
    var history: seq<ErrorInfo>
    /** Everything ever logged since the last clear. */
    ghost var logged: seq<ErrorInfo>
    const maxHistory: nat

    ghost predicate Valid()
      reads this
    {
      maxHistory > 0 && history == Recent(logged, maxHistory)
    }

    constructor()
      ensures Valid() && history == [] && maxHistory == 1000
    {
      history := [];
      logged := [];
      maxHistory := 1000;
    }

    /** `log_error`: append, then drop the oldest entry once over the bound. */
    method LogError(info: ErrorInfo)
      requires Valid()
      modifies this
      ensures Valid() && logged == old(logged) + [info]
      ensures history == Recent(old(history) + [info], maxHistory)
    {
      RecentAppend(logged, info, maxHistory);
      history := history + [info];
      if |history| > maxHistory {
        history := history[1..];
      }
      logged := logged + [info];
    }

    /** `get_error_history(limit)`: the last `limit` entries, or all of them without a limit. */
    method GetErrorHistory(limit: Option<int>) returns (r: seq<ErrorInfo>)
      ensures limit.None? || limit.value == 0 ==> r == history
      ensures limit.Some? && limit.value > 0 ==> r == Recent(history, limit.value)
      ensures limit.Some? && limit.value < 0 ==> r == PySliceFrom(history, -limit.value)
    {
      if limit.Some? && limit.value != 0 {
        r := PySliceFrom(history, -limit.value);
      } else {
        r := history;
      }
    }

    /** `clear_history` */
    method ClearHistory()
      modifies this
      requires Valid()
      ensures Valid() && history == [] && logged == []
    {
      history := [];
      logged := [];
    }
  }

  // ---------------------------------------------------------------------
  // Recovery

  /** What one recovery handler does with an error: succeed, fail or raise. */
  datatype HandlerOutcome = Recovered | NotRecovered | Raised

  type Handler = ErrorInfo -> HandlerOutcome

  /** `f"{category.value}:{message}"` */
  function ErrorKey(info: ErrorInfo): (r: string)
    ensures forall c :: StartsWith(r, CategoryValue(c)) <==> c == info.category
  {
    CategoryPrefixes(info.category, info.message);
    CategoryValue(info.category) + ":" + info.message
  }

  /** The first handler, in registration order, that reports success. */
  function FirstRecovery(hs: seq<Handler>, info: ErrorInfo): (r: Option<nat>)
    ensures r.Some? ==> r.value < |hs| && hs[r.value](info) == Recovered
    ensures r.Some? ==> forall j :: 0 <= j < r.value ==> hs[j](info) != Recovered
    ensures r.None? <==> forall j :: 0 <= j < |hs| ==> hs[j](info) != Recovered
  {
    if |hs| == 0 then None
    else if hs[0](info) == Recovered then Some(0)
    else
      var rest := FirstRecovery(hs[1..], info);
      assert forall j :: 1 <= j < |hs| ==> hs[j] == hs[1..][j - 1];
      match rest
      case None => None
      case Some(k) => Some(k + 1)
  }

  /**
   * A handler registered later is consulted only when every earlier one
   * failed or raised.
   */
  lemma {:induction false} FirstRecoveryAppend(hs: seq<Handler>, h: Handler, info: ErrorInfo)
    ensures FirstRecovery(hs + [h], info) ==
      if FirstRecovery(hs, info).Some? then FirstRecovery(hs, info)
      else if h(info) == Recovered then Some(|hs|)
      else None
  {
    if |hs| > 0 {
      FirstRecoveryAppend(hs[1..], h, info);
      assert (hs + [h])[1..] == hs[1..] + [h];
    }
  }

  function HandlersFor(handlers: map<ErrorCategory, seq<Handler>>, c: ErrorCategory): seq<Handler>
  {
    if c in handlers then handlers[c] else []
  }

  function AttemptsOf(attempts: map<string, nat>, key: string): nat
  {
    if key in attempts then attempts[key] else 0
  }

  /** The counters after one `attempt_recovery` of `key` that returned `recovered`. */
  function CountersAfter(attempts: map<string, nat>, key: string, cap: nat, recovered: bool): map<string, nat>
  {
    var n := AttemptsOf(attempts, key);
    if n >= cap then attempts else attempts[key := if recovered then 0 else n + 1]
  }

  /** `attempts` without the keys that start with `prefix`. */
  function WithoutPrefix(attempts: map<string, nat>, prefix: string): (r: map<string, nat>)
    ensures forall k :: k in r <==> k in attempts && !StartsWith(k, prefix)
    ensures forall k :: k in r ==> r[k] == attempts[k]
  {
    map k | k in attempts && !StartsWith(k, prefix) :: attempts[k]
  }

  /** `ErrorRecovery`: handlers per category and an attempt counter per error key. */
  class ErrorRecovery {
    var handlers: map<ErrorCategory, seq<Handler>>
    var attempts: map<string, nat>
    const maxAttempts: nat

    /** No counter ever exceeds the cap. */
    ghost predicate Valid()
      reads this
    {
      forall k :: k in attempts ==> attempts[k] <= maxAttempts
    }

    constructor()
      ensures Valid() && handlers == map[] && attempts == map[] && maxAttempts == 3
    {
      handlers := map[];
      attempts := map[];
      maxAttempts := 3;
    }

    /** `register_handler`: append to the category's list. */
    method RegisterHandler(c: ErrorCategory, h: Handler)
      requires Valid()
      modifies this
      ensures Valid() && attempts == old(attempts)
      ensures handlers == old(handlers)[c := HandlersFor(old(handlers), c) + [h]]
    {
      handlers := handlers[c := HandlersFor(handlers, c) + [h]];
    }

    /**
     * `attempt_recovery`: refused once the key's counter reached the cap;
     * otherwise the counter goes up by one and the handlers run in order
     * until one succeeds, which resets the counter to 0.
     */
    method AttemptRecovery(info: ErrorInfo) returns (ok: bool)
      requires Valid()
      modifies this
      ensures Valid() && handlers == old(handlers)
      ensures AttemptsOf(old(attempts), ErrorKey(info)) >= maxAttempts ==>
        !ok && attempts == old(attempts)
      ensures AttemptsOf(old(attempts), ErrorKey(info)) < maxAttempts ==>
        && (ok <==> FirstRecovery(HandlersFor(handlers, info.category), info).Some?)
        && attempts == old(attempts)[ErrorKey(info) := if ok then 0 else AttemptsOf(old(attempts), ErrorKey(info)) + 1]
      ensures attempts == CountersAfter(old(attempts), ErrorKey(info), maxAttempts, ok)
    {
      var key := ErrorKey(info);
      var n := AttemptsOf(attempts, key);
      if n >= maxAttempts {
        return false;
      }
      attempts := attempts[key := n + 1];
      var hs := HandlersFor(handlers, info.category);
      for i := 0 to |hs|
        invariant attempts == old(attempts)[key := n + 1]
        invariant handlers == old(handlers)
        invariant forall j :: 0 <= j < i ==> hs[j](info) != Recovered
      {
        if hs[i](info) == Recovered {
          attempts := attempts[key := 0];
          return true;
        }
      }
      return false;
    }

    /** `reset_recovery_attempts`: the keys of one category (by prefix), or all of them. */
    method ResetRecoveryAttempts(category: Option<ErrorCategory>)
      requires Valid()
      modifies this
      ensures Valid() && handlers == old(handlers)
      ensures category.None? ==> attempts == map[]
      ensures category.Some? ==> attempts == WithoutPrefix(old(attempts), CategoryValue(category.value))
    {
      if category.None? {
        attempts := map[];
        return;
      }
      var prefix := CategoryValue(category.value);
      var doomed := set k | k in attempts && StartsWith(k, prefix);
      while doomed != {}
        invariant handlers == old(handlers)
        invariant doomed <= attempts.Keys
        invariant forall k :: k in doomed ==> StartsWith(k, prefix)
        invariant forall k :: k in attempts <==> k in old(attempts) && (k in doomed || !StartsWith(k, prefix))
        invariant forall k :: k in attempts ==> attempts[k] == old(attempts)[k]
        decreases |doomed|
      {
        var k :| k in doomed;
        attempts := attempts - {k};
        doomed := doomed - {k};
      }
      assert attempts == WithoutPrefix(old(attempts), prefix);
    }
  }

  /** The category values all begin with different letters. */
  lemma CategoryInitials(c: ErrorCategory, d: ErrorCategory)
    requires CategoryValue(c)[0] == CategoryValue(d)[0]
    ensures c == d
  {
  }

  /** No category's value is a prefix of another category's key. */
  lemma CategoryPrefix(c: ErrorCategory, d: ErrorCategory, m: string)
    ensures StartsWith(CategoryValue(c) + ":" + m, CategoryValue(d)) <==> c == d
  {
    var k := CategoryValue(c) + ":" + m;
    var v := CategoryValue(d);
    if StartsWith(k, v) {
      assert k[0] == CategoryValue(c)[0] && v[0] == k[0];
      CategoryInitials(c, d);
    }
  }

  /** A key starts with its own category's value and with no other's. */
  lemma CategoryPrefixes(c: ErrorCategory, m: string)
    ensures forall d :: StartsWith(CategoryValue(c) + ":" + m, CategoryValue(d)) <==> c == d
  {
    forall d {
      CategoryPrefix(c, d, m);
    }
  }

  /** Two errors share a recovery counter exactly when they have the same category and message. */
  lemma ErrorKeyInjective(a: ErrorInfo, b: ErrorInfo)
    ensures ErrorKey(a) == ErrorKey(b) <==> a.category == b.category && a.message == b.message
  {
    if ErrorKey(a) == ErrorKey(b) {
      var v := CategoryValue(b.category);
      assert StartsWith(ErrorKey(b), v);
      assert a.category == b.category;
      assert a.message == ErrorKey(a)[|v| + 1..];
    }
  }

  /** Resetting a category clears exactly the counters of that category's errors. */
  lemma ResetClearsCategory(attempts: map<string, nat>, c: ErrorCategory, info: ErrorInfo)
    ensures ErrorKey(info) in WithoutPrefix(attempts, CategoryValue(c)) <==>
      ErrorKey(info) in attempts && info.category != c
  {
    CategoryPrefix(info.category, c, info.message);
  }

  // ---------------------------------------------------------------------
  // User notification

  datatype DialogKind = ShowError | ShowWarning | ShowInfo

  /** A message box as it appears on screen. */
  datatype Dialog = Dialog(kind: DialogKind, title: string, message: string)

  /** `_get_dialog_title`: every level has a title, so the fallback is never used. */
  function DialogTitle(level: ErrorLevel): (r: string)
    ensures r != "通知"
  {
    match level
    case Debug => "デバッグ情報"
    case Info => "情報"
    case Warning => "警告"
    case Error => "エラー"
    case Critical => "重大なエラー"
  }

  /** The friendly-message table, in its listing order. */
  const FriendlyMessages: seq<(string, string)> := [
    ("Permission denied", "アクセス権限がありません。管理者として実行してください。"),
    ("File not found", "ファイルが見つかりません。パスを確認してください。"),
    ("Connection refused", "接続が拒否されました。ネットワーク設定を確認してください。"),
    ("Memory error", "メモリ不足です。他のアプリケーションを終了してください。")
  ]

  /** The first entry of `table` whose key occurs in `message`, ignoring case. */
  function FirstFriendly(table: seq<(string, string)>, message: string): (r: Option<nat>)
    ensures r.Some? ==> r.value < |table| && Contains(Lower(message), Lower(table[r.value].0))
    ensures r.Some? ==> forall j :: 0 <= j < r.value ==> !Contains(Lower(message), Lower(table[j].0))
    ensures r.None? ==> forall j :: 0 <= j < |table| ==> !Contains(Lower(message), Lower(table[j].0))
  {
    if |table| == 0 then None
    else if Contains(Lower(message), Lower(table[0].0)) then Some(0)
    else
      var rest := FirstFriendly(table[1..], message);
      assert forall j :: 1 <= j < |table| ==> table[j] == table[1..][j - 1];
      match rest
      case None => None
      case Some(k) => Some(k + 1)
  }

  /** `_format_user_message` */
  function FormatUserMessage(message: string): (r: string)
    ensures FirstFriendly(FriendlyMessages, message).None? ==> r == message
    ensures FirstFriendly(FriendlyMessages, message).Some? ==>
      r == FriendlyMessages[FirstFriendly(FriendlyMessages, message).value].1
  {
    match FirstFriendly(FriendlyMessages, message)
    case None => message
    case Some(i) => FriendlyMessages[i].1
  }

  /** A message naming a listed condition, whatever its case, gets that condition's text. */
  lemma PermissionDeniedIsFriendly(message: string)
    requires Contains(Lower(message), "permission denied")
    ensures FormatUserMessage(message) == FriendlyMessages[0].1
  {
    assert Lower(FriendlyMessages[0].0) == "permission denied";
  }

  /** The message box `show_error_dialog` opens for an error. */
  function ErrorDialog(info: ErrorInfo, showDetails: bool): (d: Dialog)
    ensures d.title == DialogTitle(info.level)
    ensures StartsWith(d.message, FormatUserMessage(info.message))
    ensures d.kind == ShowError <==> info.level == Error || info.level == Critical
    ensures d.kind == ShowWarning <==> info.level == Warning
  {
    var base := FormatUserMessage(info.message);
    var withDetails := if showDetails && Truthy(info.details) then base + "\n\n詳細:\n" + info.details.value else base;
    var message := if Truthy(info.suggestion) then withDetails + "\n\n推奨対応:\n" + info.suggestion.value else withDetails;
    var kind := if info.level == Error || info.level == Critical then ShowError
                else if info.level == Warning then ShowWarning
                else ShowInfo;
    Dialog(kind, DialogTitle(info.level), message)
  }

  /** `UserNotification`: the dialogs shown, and a history of at most `maxHistory` of their errors. */
  class UserNotification {
    var history: seq<ErrorInfo>
    var screen: seq<Dialog>
    const maxHistory: nat

    ghost predicate Valid()
      reads this
    {
      maxHistory > 0 && |history| <= maxHistory
    }

    constructor()
      ensures Valid() && history == [] && screen == [] && maxHistory == 100
    {
      history := [];
      screen := [];
      maxHistory := 100;
    }

    /** `_add_to_history` */
    method AddToHistory(info: ErrorInfo)
      requires Valid()
      modifies this
      ensures Valid() && screen == old(screen)
      ensures history == Recent(old(history) + [info], maxHistory)
    {
      history := history + [info];
      if |history| > maxHistory {
        history := history[1..];
      }
    }

    /**
     * `show_error_dialog`; `fails` says whether the message box raised, in
     * which case nothing is recorded and false is returned.
     */
    method ShowErrorDialog(info: ErrorInfo, showDetails: bool, fails: bool) returns (ok: bool)
      requires Valid()
      modifies this
      ensures Valid() && ok == !fails
      ensures ok ==> screen == old(screen) + [ErrorDialog(info, showDetails)]
      ensures ok ==> history == Recent(old(history) + [info], maxHistory)
      ensures !ok ==> screen == old(screen) && history == old(history)
    {
      if fails {
        return false;
      }
      screen := screen + [ErrorDialog(info, showDetails)];
      AddToHistory(info);
      return true;
    }
  }

  // ---------------------------------------------------------------------
  // The global handler

  /** `_get_error_suggestion` */
  function ErrorSuggestion(c: ErrorCategory): (r: Option<string>)
    ensures r.None? <==> c == System || c == Ui || c == Application
  {
    match c
    case FileIo => Some("ファイルのアクセス権限とパスを確認してください")
    case Permission => Some("管理者権限で実行してください")
    case Network => Some("ネットワーク接続を確認してください")
    case Config => Some("設定ファイルを確認または初期化してください")
    case Resource => Some("使用可能なメモリとディスク容量を確認してください")
    case _ => None
  }

  /** `_get_recovery_action` */
  function RecoveryAction(c: ErrorCategory): (r: Option<string>)
    ensures r.Some? <==> c == Config || c == FileIo || c == Resource
  {
    match c
    case Config => Some("設定をデフォルト値にリセット")
    case FileIo => Some("ファイルの再作成を試行")
    case Resource => Some("一時ファイルのクリーンアップ")
    case _ => None
  }

  /** `_create_error_info`: `message` is `str(error)`. */
  function CreateErrorInfo(message: string, level: ErrorLevel, category: ErrorCategory): (r: ErrorInfo)
    ensures r.level == level && r.category == category && r.message == message && r.details.None?
    ensures r.suggestion == ErrorSuggestion(category) && r.recoveryAction == RecoveryAction(category)
  {
    ErrorInfo(level, category, message, None, ErrorSuggestion(category), RecoveryAction(category))
  }

  /** The entry logged after a successful recovery. */
  function RecoveryNotice(category: ErrorCategory, message: string): ErrorInfo
  {
    Plain(Info, category, "エラー回復成功: " + message)
  }

  /** The condition under which `handle_error` opens a dialog. */
  predicate ShowsDialog(showDialog: bool, recovered: bool, level: ErrorLevel)
  {
    showDialog && !recovered && (level == Warning || level == Error || level == Critical)
  }

  /** The default handlers: configuration errors recover, file and resource errors do not. */
  function RecoverConfig(info: ErrorInfo): (r: HandlerOutcome)
    ensures r == Recovered
  {
    Recovered
  }

  function RecoverFileIo(info: ErrorInfo): (r: HandlerOutcome)
    ensures r == NotRecovered
  {
    NotRecovered
  }

  function RecoverResource(info: ErrorInfo): (r: HandlerOutcome)
    ensures r == NotRecovered
  {
    NotRecovered
  }

  // ---------------------------------------------------------------------
  // Name resolution inside one Python function body, as far as
  // `_setup_system_error_handlers` needs it: a name that an `import` or an
  // assignment anywhere in the body binds is local to the whole body, so
  // reading it before that binding raises UnboundLocalError; any other name
  // must be a module global, or the read raises NameError.

  datatype Stmt = Read(name: string) | Bind(name: string)

  datatype RunOutcome = Completed | NameError(name: string) | UnboundLocalError(name: string)

  /** The names a body binds, which the compiler makes local to it. */
  function LocalNames(body: seq<Stmt>): (r: set<string>)
    ensures forall n :: n in r <==> exists i :: 0 <= i < |body| && body[i] == Bind(n)
  {
    set i | 0 <= i < |body| && body[i].Bind? :: body[i].name
  }

  /** Running `body` in order, with `bound` the local names bound so far. */
  function Run(body: seq<Stmt>, locals: set<string>, bound: set<string>, globals: set<string>): RunOutcome
    decreases |body|
  {
    if |body| == 0 then Completed
    else match body[0]
      case Read(n) =>
        if n in locals && n !in bound then UnboundLocalError(n)
        else if n !in locals && n !in globals then NameError(n)
        else Run(body[1..], locals, bound, globals)
      case Bind(n) => Run(body[1..], locals, bound + {n}, globals)
  }

  /** A call: the parameters are local and bound on entry. */
  function Call(params: set<string>, body: seq<Stmt>, globals: set<string>): RunOutcome
  {
    Run(body, params + LocalNames(body), params, globals)
  }

  /** The read at `i` finds its name: a local bound on entry or earlier, or a global. */
  predicate Resolves(body: seq<Stmt>, locals: set<string>, bound: set<string>, globals: set<string>, i: nat)
    requires i < |body| && body[i].Read?
  {
    var n := body[i].name;
    if n in locals then n in bound || exists j :: 0 <= j < i && body[j] == Bind(n) else n in globals
  }

  /** A read of a local name that no earlier statement binds raises. */
  lemma {:induction false} ReadBeforeBindFails(body: seq<Stmt>, locals: set<string>, bound: set<string>,
                                               globals: set<string>, n: string, i: nat)
    requires i < |body| && body[i] == Read(n) && n in locals && n !in bound
    requires forall j :: 0 <= j < i ==> body[j] != Bind(n)
    ensures Run(body, locals, bound, globals) != Completed
    decreases i
  {
    if i > 0 {
      var bound' := if body[0].Bind? then bound + {body[0].name} else bound;
      forall j | 0 <= j < i - 1 ensures body[1..][j] != Bind(n) {
        assert body[1..][j] == body[j + 1];
      }
      ReadBeforeBindFails(body[1..], locals, bound', globals, n, i - 1);
    }
  }

  /** A body whose every read resolves runs to completion. */
  lemma {:induction false} ResolvedCompletes(body: seq<Stmt>, locals: set<string>, bound: set<string>, globals: set<string>)
    requires forall i :: 0 <= i < |body| && body[i].Read? ==> Resolves(body, locals, bound, globals, i)
    ensures Run(body, locals, bound, globals) == Completed
    decreases |body|
  {
    if |body| > 0 {
      var rest := body[1..];
      var bound' := if body[0].Bind? then bound + {body[0].name} else bound;
      if body[0].Read? {
        assert Resolves(body, locals, bound, globals, 0);
      }
      forall i | 0 <= i < |rest| && rest[i].Read?
        ensures Resolves(rest, locals, bound', globals, i)
      {
        assert rest[i] == body[i + 1];
        assert Resolves(body, locals, bound, globals, i + 1);
        var n := rest[i].name;
        if n in locals && n !in bound' {
          var j :| 0 <= j < i + 1 && body[j] == Bind(n);
          assert j != 0;
          assert rest[j - 1] == body[j];
        }
      }
      ResolvedCompletes(rest, locals, bound', globals);
    }
  }

  /** The names relevant here among those `error_handler.py` imports at module level (lines 4-14); `threading` is not among them. */
  const ModuleGlobals: set<string> := {"sys", "traceback", "logging", "os", "Path", "datetime", "tk", "messagebox"}

  /**
   * `_setup_system_error_handlers` as written, on a Python that has
   * `threading.excepthook`: `sys.excepthook = self...`, then
   * `hasattr(threading, ...)`, then `import threading` and
   * `threading.excepthook = self...`.
   */
  const SetupHooksAsWritten: seq<Stmt> :=
    [Read("self"), Read("sys"), Read("threading"), Bind("threading"), Read("self"), Read("threading")]

  /** The same body with `import threading` moved ahead of its first use. */
  const SetupHooksFixed: seq<Stmt> :=
    [Bind("threading"), Read("self"), Read("sys"), Read("threading"), Read("self"), Read("threading")]

  /**
   * As written, the hook setup (and with it `GlobalErrorHandler.__init__`)
   * raises at the `hasattr` test, after `sys.excepthook` has already been
   * replaced.
   */
  lemma SetupHooksAsWrittenRaises()
    ensures Call({"self"}, SetupHooksAsWritten, ModuleGlobals) == UnboundLocalError("threading")
  {
    var body := SetupHooksAsWritten;
    var locals := {"self"} + LocalNames(body);
    assert body[3] == Bind("threading");
    assert "threading" in locals && "sys" !in locals;
    ReadBeforeBindFails(body, locals, {"self"}, ModuleGlobals, "threading", 2);
    assert body[1..][1..] == [Read("threading"), Bind("threading"), Read("self"), Read("threading")];
  }

  /** With the import first, the hook setup completes. */
  lemma SetupHooksFixedCompletes()
    ensures Call({"self"}, SetupHooksFixed, ModuleGlobals) == Completed
  {
    var body := SetupHooksFixed;
    var locals := {"self"} + LocalNames(body);
    assert body[0] == Bind("threading");
    forall i | 0 <= i < |body| && body[i].Read?
      ensures Resolves(body, locals, {"self"}, ModuleGlobals, i)
    {
      if body[i].name == "threading" {
        assert 0 < i && body[0] == Bind("threading");
      }
    }
    ResolvedCompletes(body, locals, {"self"}, ModuleGlobals);
  }

  /** `_register_default_recovery_handlers`, run on a recovery that has no handlers yet. */
  method RegisterDefaultRecoveryHandlers(r: ErrorRecovery)
    requires r.Valid() && r.handlers == map[]
    modifies r
    ensures r.Valid() && r.attempts == old(r.attempts)
    ensures r.handlers.Keys == {Config, FileIo, Resource}
    ensures r.handlers[Config] == [RecoverConfig]
    ensures r.handlers[FileIo] == [RecoverFileIo]
    ensures r.handlers[Resource] == [RecoverResource]
  {
    r.RegisterHandler(Config, RecoverConfig);
    assert [] + [RecoverConfig] == [RecoverConfig];
    assert r.handlers == map[Config := [RecoverConfig]];
    r.RegisterHandler(FileIo, RecoverFileIo);
    assert [] + [RecoverFileIo] == [RecoverFileIo];
    r.RegisterHandler(Resource, RecoverResource);
    assert [] + [RecoverResource] == [RecoverResource];
  }

  /**
   * `GlobalErrorHandler` without the interpreter hooks, constructed as
   * `__init__` is evidently meant to run, with the hook setup of
   * `SetupHooksFixed`; as written, `_setup_system_error_handlers` raises
   * inside `__init__` (`SetupHooksAsWrittenRaises`).
   */
  class GlobalErrorHandler {
    const logger: ErrorLogger
    const recovery: ErrorRecovery
    const notification: UserNotification

    ghost predicate Valid()
      reads this, logger, recovery, notification
    {
      logger.Valid() && recovery.Valid() && notification.Valid()
    }

    constructor()
      ensures Valid() && fresh(logger) && fresh(recovery) && fresh(notification)
      ensures recovery.handlers.Keys == {Config, FileIo, Resource}
      ensures recovery.handlers[Config] == [RecoverConfig]
      ensures recovery.handlers[FileIo] == [RecoverFileIo]
      ensures recovery.handlers[Resource] == [RecoverResource]
      ensures recovery.attempts == map[] && recovery.maxAttempts == 3
      ensures logger.history == [] && notification.history == [] && notification.screen == []
    {
      var r := new ErrorRecovery();
      RegisterDefaultRecoveryHandlers(r);
      recovery := r;
      logger := new ErrorLogger();
      notification := new UserNotification();
    }

    /** The logging and recovery half of `handle_error`. */
    method LogAndRecover(info: ErrorInfo, attemptRecovery: bool) returns (recovered: bool)
      requires Valid()
      modifies logger, recovery
      ensures Valid()
      ensures recovered <==> attemptRecovery && AttemptsOf(old(recovery.attempts), ErrorKey(info)) < recovery.maxAttempts
                             && FirstRecovery(HandlersFor(old(recovery.handlers), info.category), info).Some?
      ensures recovery.handlers == old(recovery.handlers)
      ensures !attemptRecovery ==> recovery.attempts == old(recovery.attempts)
      ensures attemptRecovery ==>
        recovery.attempts == CountersAfter(old(recovery.attempts), ErrorKey(info), recovery.maxAttempts, recovered)
      ensures logger.history ==
        Recent(old(logger.history) + [info] + (if recovered then [RecoveryNotice(info.category, info.message)] else []),
               logger.maxHistory)
    {
      logger.LogError(info);
      recovered := false;
      if attemptRecovery {
        recovered := recovery.AttemptRecovery(info);
        if recovered {
          RecentAppend(old(logger.history) + [info], RecoveryNotice(info.category, info.message), logger.maxHistory);
          logger.LogError(RecoveryNotice(info.category, info.message));
        }
      }
    }

    /**
     * `handle_error`: log the error, try recovery if asked, log a recovery,
     * and show a dialog only for an unrecovered warning or worse when
     * dialogs are wanted. The result is the recovery result.
     */
    method HandleError(message: string, level: ErrorLevel, category: ErrorCategory,
                       showDialog: bool, attemptRecovery: bool, dialogFails: bool)
      returns (recovered: bool)
      requires Valid()
      modifies logger, recovery, notification
      ensures Valid()
      ensures recovered <==>
        && attemptRecovery
        && AttemptsOf(old(recovery.attempts), ErrorKey(CreateErrorInfo(message, level, category))) < recovery.maxAttempts
        && FirstRecovery(HandlersFor(old(recovery.handlers), category), CreateErrorInfo(message, level, category)).Some?
      ensures recovery.handlers == old(recovery.handlers)
      ensures !attemptRecovery ==> recovery.attempts == old(recovery.attempts)
      ensures attemptRecovery ==>
        recovery.attempts == CountersAfter(old(recovery.attempts), ErrorKey(CreateErrorInfo(message, level, category)),
                                           recovery.maxAttempts, recovered)
      ensures logger.history ==
        Recent(old(logger.history) + [CreateErrorInfo(message, level, category)]
                 + (if recovered then [RecoveryNotice(category, message)] else []),
               logger.maxHistory)
      ensures ShowsDialog(showDialog, recovered, level) && !dialogFails ==>
        && notification.screen == old(notification.screen) + [ErrorDialog(CreateErrorInfo(message, level, category), false)]
        && notification.history == Recent(old(notification.history) + [CreateErrorInfo(message, level, category)],
                                          notification.maxHistory)
      ensures !ShowsDialog(showDialog, recovered, level) || dialogFails ==>
        notification.screen == old(notification.screen) && notification.history == old(notification.history)
    {
      var info := CreateErrorInfo(message, level, category);
      recovered := LogAndRecover(info, attemptRecovery);
      if ShowsDialog(showDialog, recovered, level) {
        var _ := notification.ShowErrorDialog(info, false, dialogFails);
      }
    }
  }
}
