# Floating launcher: a verified model of its core

The floating launcher is a small Windows desktop tool. A round icon floats above other windows, and clicking it starts one configured application. The program keeps its settings in a JSON file with rotating backups. Before starting the application it screens the path. It records and recovers from errors, can register itself to start with Windows, shows an icon in the notification area, and has a three-tab settings window.

This project models the logic behind those parts in Dafny, one module per source file, and proves what each part promises.

| module | source file | form |
|---|---|---|
| `ConfigManager` | `src/config_manager.py` | Validators and backup ordering are functions with lemmas. The live file and the backup directory are fields of the class `ConfigStore`, whose methods save, back up, rotate, restore and load. |
| `AppLauncher` | `src/app_launcher.py` | The security screen, the executable test and the elevation test are functions. The process table is a class, and `KillApplication` is a loop over it. |
| `ErrorHandler` | `src/error_handler.py` | `ErrorLogger`, `ErrorRecovery`, `UserNotification` and `GlobalErrorHandler` are classes over their history lists and counter maps. The message tables are functions. |
| `AutoStartup` | `src/auto_startup.py` | The registry `Run` key is a `map` field of `Registry`. `WindowsAutoStartup` and `AutoStartupManager` are classes. Command-line parsing is pure functions. |
| `SystemTray` | `src/system_tray.py` | The menu is a `seq` field edited by the methods. Flags gate `Show`/`Start`/`Stop`. |
| `FloatingIcon` | `src/floating_icon.py` | The icon's position, size, visibility, callbacks and drag anchor are fields. Bounds clamping is a function. |
| `SettingsWindow` | `src/settings_window.py` | The three tabs are values holding their Tk variables. The window's tab list and callbacks are fields. Validation, saving and merging are functions that the window's methods are proved against. |
| `Text`, `Json`, `Paths` | (Python built-ins) | `str.lower`, `in`, `strip`, `find`, `int()`, `str()` on integers; JSON values and `isinstance`; `ntpath`/`pathlib` pieces and the file system as a map. |

## What is abstracted

- **Files.** A stored file is either a parsed JSON document or malformed text. A backup is a `(name, mtime, content)` entry in listing order. A single flag `ioFails` says whether opening, copying and writing files raises `OSError`. Clock readings (`time.time()`, the `strftime` stamp and the ISO text) are parameters.
- **The file system** seen by the launcher and the settings window is a map from path to `File(size)` or `Directory`.
- **The registry.** Each registry call's exception text arrives as an optional fault.
- **Other outside effects:**
  - `os.path.normpath` and `os.path.abspath` are function parameters.
  - `subprocess.Popen` is an outcome parameter.
  - The display size is a parameter.
  - Whether the Tk root exists is a parameter.
  - Whether a dialog or a callback raises is a parameter.

## Model

| member | source | states |
|---|---|---|
| `ConfigManager.RequiredKeysComplete` | src/config_manager.py:144 | Every one of the six configuration keys is in the required list, at its rank. |
| `ConfigManager.MissingKeyErrors` | src/config_manager.py:143-151 | There is one "missing key" error per absent key, and no other errors. They come in key order, and each error names a key absent from the mapping. |
| `ConfigManager.MissingRequired` | src/config_manager.py:143-151 | The required-keys loop reports every absent key and only absent keys, each once, in the required order. |
| `ConfigManager.ValidateConfig` | src/config_manager.py:131-190 | The verdict is true exactly when the error list is empty. |
| `ConfigManager.ValidateConfigIff` | src/config_manager.py:153-190 | It accepts exactly the strictly valid configurations: <ul><li>`app_path` and `version` are strings;</li><li>`icon_position` is a mapping whose `x`/`y` are `int`s (booleans included) in [-32768, 32767];</li><li>`icon_size` is an `int` in [16, 128];</li><li>`icon_fixed` and `auto_start` are bools.</li></ul> |
| `ConfigManager.AbsentKeyInvalid` | src/config_manager.py:143-151 | A configuration missing any required key is not valid. |
| `ConfigManager.MissingKeyInvalid` | src/config_manager.py:147-151 | When a key is missing, validation fails, and the configuration is indeed not valid. |
| `ConfigManager.PresentKeysIff` | src/config_manager.py:153-190 | With every key present, the field checks accept exactly the valid configurations. |
| `ConfigManager.ValidateConfigMissingKeys` | src/config_manager.py:143-151 | When a key is missing, the result is false. The errors are exactly the missing-key errors, one per absent key, in the required order; there are no type or range errors. |
| `ConfigManager.DefaultConfigValid` | src/config_manager.py:112-129 | The default configuration passes the strict validator with no errors. |
| `ConfigManager.DefaultConfig` | src/config_manager.py:112-129 | The defaults carry exactly the six settings, one per configuration key: `app_path`, `icon_position`, `icon_fixed`, `auto_start`, `icon_size` and `version`. |
| `ConfigManager.TypeErrors` | src/config_manager.py:320-332 | No type error is reported exactly when every checked key that is present has its type. |
| `ConfigManager.BasicValidation` | src/config_manager.py:303-334 | The verdict is true iff there are no errors. A non-mapping gets exactly the one "not a mapping" error. |
| `ConfigManager.BasicValidationIff` | src/config_manager.py:303-334 | It passes exactly a mapping whose six known keys, where present, have their Python types. |
| `ConfigManager.StrictImpliesBasic` | src/config_manager.py:131-190 | Every configuration the strict validator accepts also passes the check made before saving. |
| `ConfigManager.BasicIgnoresOtherKeys` | src/config_manager.py:303-334 | Adding a key other than the six checked ones never makes the basic check fail. |
| `ConfigManager.BackupNameMatches` | src/config_manager.py:212-215 | A backup's generated name is recognised as a backup by rotation and recovery. |
| `ConfigManager.Matching` | src/config_manager.py:349-352 | The collected backups are exactly the entries with a backup name. The collection never grows, and it keeps names unique. |
| `ConfigManager.KeyLessTotal` | src/config_manager.py:356 | The `(mtime, path)` ordering puts any two differently named backups in some order. |
| `ConfigManager.KeyLessTransitive` | src/config_manager.py:356 | The `(mtime, path)` ordering is transitive. |
| `ConfigManager.SortBackups` | src/config_manager.py:356 | `list.sort()` gives an ascending permutation of the backups. |
| `ConfigManager.SortedSameElements` | src/config_manager.py:356 | Sorting neither adds nor drops an entry. |
| `ConfigManager.RemoveName` | src/config_manager.py:358 | `os.remove` never lengthens the directory. |
| `ConfigManager.RemoveNameMembers` | src/config_manager.py:358 | `os.remove` drops exactly the entries with that name. |
| `ConfigManager.RemoveNameUnique` | src/config_manager.py:358 | Removing an entry keeps the names in the directory distinct. |
| `ConfigManager.RemoveNameAbsent` | src/config_manager.py:358 | Removing a name that no entry has changes nothing. |
| `ConfigManager.RemoveNameCount` | src/config_manager.py:358 | Removing one existing backup lowers the backup count by exactly one. |
| `ConfigManager.RemoveAll` | src/config_manager.py:357-358 | The deletion loop leaves exactly the entries whose names were not deleted. |
| `ConfigManager.RemoveAllCount` | src/config_manager.py:357-358 | Deleting k distinct backups lowers the count by k. |
| `ConfigManager.Doomed` | src/config_manager.py:355-357 | The backups chosen for deletion are distinct backups of the directory. There are `count - max` of them when the count exceeds `max`, and none otherwise. |
| `ConfigManager.CleanedUp` | src/config_manager.py:355-358 | Rotation keeps names unique and adds no entry. |
| `ConfigManager.CleanupBound` | src/config_manager.py:336-361 | After rotation, the backup count is `min(count, max)`. |
| `ConfigManager.CleanupKeepsNewest` | src/config_manager.py:356-358 | Every surviving backup is newer, by `(mtime, name)`, than every deleted one. |
| `ConfigManager.CleanupKeepsOthers` | src/config_manager.py:349-352 | Files that are not backups are never deleted. |
| `ConfigManager.PySliceStop` | src/config_manager.py:357 | Python's stop index for `s[:stop]` (negative counts from the end) stays within the sequence. |
| `ConfigManager.CleanupAsWrittenAgrees` | src/config_manager.py:357 | For a positive limit, the `[:-max]` slice in `_cleanup_old_backups` deletes the same backups as the corrected rotation. |
| `ConfigManager.CleanupZeroKeepsAll` | src/config_manager.py:357 | With a limit of 0 and at least one backup, `[:-0]` is empty: nothing is deleted, and backups remain (see Findings). |
| `ConfigManager.CleanedUpAsWritten` | src/config_manager.py:355-358 | The slice deletion as written only removes entries: what remains was in the directory, with distinct names. |
| `ConfigManager.PutBackup` | src/config_manager.py:217 | `shutil.copy2` makes the new entry present. Only an entry of the same name is replaced, and every other entry stays. |
| `ConfigManager.BackupVisibleAfterBackup` | src/config_manager.py:202-225 | After a backup, between 1 and 5 backups exist. |
| `ConfigManager.ViewOf` | src/config_manager.py:49-53 | A loaded document: <ul><li>fails exactly when it is not a JSON object;</li><li>otherwise keeps every key except `_metadata`, with its value.</li></ul> |
| `ConfigManager.SaveLoadRoundTrip` | src/config_manager.py:96-105 | Loading what was saved gives back the saved mapping without `_metadata`. |
| `ConfigManager.FirstParsed` | src/config_manager.py:276-278 | The recovery loop picks the first candidate that parses; every earlier one is malformed. |
| `ConfigManager.Reverse` | src/config_manager.py:275 | Reversal puts element i at position n-1-i. |
| `ConfigManager.NewestFirstMembers` | src/config_manager.py:266-275 | The newest-first list holds exactly the backups. |
| `ConfigManager.NewestFirstDescending` | src/config_manager.py:275 | `sort(reverse=True)` is strictly descending by `(mtime, name)`. |
| `ConfigManager.LatestRestorableIsNewest` | src/config_manager.py:253-283 | Recovery picks a parsable backup. Every other parsable backup is older. |
| `ConfigManager.LatestRestorableNone` | src/config_manager.py:253-283 | Recovery finds nothing exactly when no backup parses. |
| `ConfigManager.Lookup` | src/config_manager.py:238-239 | A backup path resolves to the entry of that name, or to nothing when no entry has it. |
| `ConfigManager.LookupUnique` | src/config_manager.py:238-239 | With unique names, looking up an entry's name finds that entry. |
| `ConfigManager.ConfigStore.constructor` | src/config_manager.py:19-37 | Sets the store to the given live file, backups and I/O behaviour. |
| `ConfigManager.ConfigStore.ListBackups` | src/config_manager.py:349-352 | The listing loop returns the backups in listing order. |
| `ConfigManager.ConfigStore.RemoveBackups` | src/config_manager.py:357-358 | The deletion loop removes the given entries and leaves the live file alone. |
| `ConfigManager.ConfigStore.CleanupOldBackups` | src/config_manager.py:336-361 | The backup directory becomes its rotated form; the live file is unchanged. |
| `ConfigManager.ConfigStore.BackupConfig` | src/config_manager.py:202-225 | It fails exactly when there is no live file or I/O fails; then nothing changes. On success it returns the stamped name, and the directory gets the copy and is rotated. |
| `ConfigManager.ConfigStore.SaveConfig` | src/config_manager.py:75-110 | It succeeds iff the basic check passes and I/O works. <ul><li>On failure: no backup and no write.</li><li>On success: the old file is backed up, then the live file holds the mapping plus `_metadata`.</li><li>The new store is exactly `SavedStore` of the old one.</li></ul> |
| `ConfigManager.ConfigStore.ResetToDefault` | src/config_manager.py:192-200 | The store is what saving the defaults leaves: unless I/O fails, the old live file is backed up and rotated, and the defaults become the live file. On failure, nothing changes. |
| `ConfigManager.ConfigStore.RestoreFromBackup` | src/config_manager.py:227-251 | It succeeds iff the named backup exists, parses, and I/O works. Then the live file becomes the backup; otherwise nothing changes. |
| `ConfigManager.ConfigStore.RestoreFirst` | src/config_manager.py:276-278 | The loop restores the first parsable candidate. Nothing changes when none parses. |
| `ConfigManager.ConfigStore.TryRestoreFromLatestBackup` | src/config_manager.py:253-283 | It restores the newest parsable backup, if any. |
| `ConfigManager.ConfigStore.LoadConfig` | src/config_manager.py:39-73 | <ul><li>A missing file: the defaults are stored and returned.</li><li>An I/O failure: defaults are returned, with nothing written.</li><li>A parsed file: returned without `_metadata`.</li><li>A corrupt file: the newest parsable backup is restored and returned; if there is none, the file is backed up and the defaults are persisted and returned.</li><li>The result is exactly `LoadedView` of the old store, and the new store `LoadedStore` of it.</li></ul> |
| `ConfigManager.LoadedView` | src/config_manager.py:39-73 | The configuration a load returns: it is not an object only for a readable live file, and it never holds `_metadata`. |
| `ConfigManager.LoadedStore` | src/config_manager.py:39-73 | The store a load leaves: unchanged on an I/O failure or a parsable live file, and with distinct backup names. |
| `ConfigManager.SavedStore` | src/config_manager.py:75-110 | The store a save leaves: unchanged when the basic check or I/O fails, otherwise a live file holding the mapping, with distinct backup names. |
| `ConfigManager.ConfigStore.RecoverConfig` | src/config_manager.py:61-70 | On a malformed live file: if a backup parses, the newest such is restored and its contents returned. Otherwise the defaults are backed up over the broken file, saved and returned. |
| `ConfigManager.ConfigStore.SaveThenLoad` | src/config_manager.py:75-110 | After a successful save, the next load returns the saved mapping without `_metadata`. |
| `AppLauncher.FirstInvalid` | src/app_launcher.py:345-347 | The scan finds a forbidden character that occurs in the path, or reports that none occurs. |
| `AppLauncher.ValidateSecurity` | src/app_launcher.py:326-361 | The checks run in order, and the first failure wins: <ol><li>longer than 260;</li><li>`..`;</li><li>a forbidden character;</li><li>not absolute;</li><li>starts with `\\`.</li></ol> Each result is reported exactly when its own check fails and every earlier check passes. No result is reported exactly when all five checks pass. A reported character occurs in the path. |
| `AppLauncher.ValidateSecurityIff` | src/app_launcher.py:336-358 | The screen passes exactly when none of the five conditions holds. |
| `AppLauncher.AllowedSuffixNonEmpty` | src/app_launcher.py:160-163 | An allowed extension comes from a non-empty suffix. |
| `AppLauncher.IsValidExecutable` | src/app_launcher.py:138-171 | An accepted path is an existing regular file of non-zero size whose name has an extension. A path that does not exist is refused. |
| `AppLauncher.ValidExecutableEnding` | src/app_launcher.py:138-171 | A valid executable is an existing non-empty file whose lowercased name ends in an allowed extension. |
| `AppLauncher.SystemDirs` | src/app_launcher.py:185-189 | There are three system directories: `System32` and `SysWOW64` under `WINDIR`, and `Windows NT` under `PROGRAMFILES`. An unset variable reads as `''`, so the directory is then the relative name alone. |
| `AppLauncher.UnderSomeDir` | src/app_launcher.py:193-198 | The scan is true iff the normalised, lowercased path starts with some normalised, lowercased system directory. |
| `AppLauncher.RequiresAdminPrivileges` | src/app_launcher.py:173-203 | Elevation is required iff the path is under a system directory and its basename is one of the four admin tools. |
| `AppLauncher.AdminOnlyInSystemDirs` | src/app_launcher.py:185-200 | Outside the system directories nothing needs elevation. |
| `AppLauncher.Command` | src/app_launcher.py:93-96 | The spawned command is the path, followed by the arguments in order. |
| `AppLauncher.LaunchOutcome` | src/app_launcher.py:54-136 | The checks run in order: security, existence, file type, then spawn. The first failure gives its message, no pid and failure. Success means every check passed and the spawn started, and carries the pid and no error. |
| `AppLauncher.LaunchedPathsAreSafe` | src/app_launcher.py:68-110 | A successful launch ran a safe path to a non-empty file with an allowed extension. |
| `AppLauncher.RunasCommand` | src/app_launcher.py:216-224 | The `runas` command line starts with the quoted path. |
| `AppLauncher.QuoteJoin` | src/app_launcher.py:223 | No arguments give the empty string. Otherwise the text starts and ends with a double quote. |
| `AppLauncher.QuoteJoinSnoc` | src/app_launcher.py:223 | Each further argument is appended in double quotes, after a single space, as `' '.join` does. |
| `AppLauncher.LaunchWithAdmin` | src/app_launcher.py:205-242 | It always reports success, with no pid and no error. |
| `AppLauncher.SignalledNonEmpty` | src/app_launcher.py:296-324 | Some process is signalled exactly when some matching process can be terminated. |
| `AppLauncher.SignalledOnlyMatching` | src/app_launcher.py:310-318 | Every signalled pid belongs to a matching, terminable process. |
| `AppLauncher.Matches` | src/app_launcher.py:279-290 | A process whose name and executable could not be read never matches. The same base name, or the same executable path, always matches. |
| `AppLauncher.Killable` | src/app_launcher.py:310-318 | Only a matching process is signalled. A process whose `terminate()` raises is never counted. |
| `AppLauncher.ProcessTable.constructor` | src/app_launcher.py:48-52 | The table starts with the given processes and nothing signalled. |
| `AppLauncher.ProcessTable.IsApplicationRunning` | src/app_launcher.py:269-294 | It is true iff some process matches, by lowercased basename or by normalised executable path. |
| `AppLauncher.ProcessTable.KillApplication` | src/app_launcher.py:296-324 | Every matching terminable process is signalled, in table order. The result is true iff one was. |
| `AppLauncher.ProcessTable.LaunchApplication` | src/app_launcher.py:54-136 | The result is the launch outcome. Only a success adds a process: it has the spawned name and executable and runs `[path] + args`. |
| `AppLauncher.LaunchedIsRunning` | src/app_launcher.py:279-290 | Appending a process that runs the launched file directly to any table gives a table in which some process matches that path. |
| `AppLauncher.BatchLaunchNotRunning` | src/app_launcher.py:279-290 | For the example `C:\b.bat` run as `cmd.exe` with executable `C:\cmd.exe`, under the identity normalisation, neither the name test nor the executable test matches the batch file. |
| `AppLauncher.LaunchThenCheck` | src/app_launcher.py:269-294 | After a successful launch of a file the OS runs directly, the application is reported running. |
| `ErrorHandler.Recent` | src/error_handler.py:129-131 | The bounded history is the last n entries, in order. |
| `ErrorHandler.RecentAppend` | src/error_handler.py:129-131 | Trimming after every append equals trimming the whole log once. |
| `ErrorHandler.PySliceFrom` | src/error_handler.py:180-181 | `s[-limit:]` gives a suffix of the length Python gives, for either sign. |
| `ErrorHandler.ErrorLogger.constructor` | src/error_handler.py:55-61 | The history starts empty, with a bound of 1000. |
| `ErrorHandler.ErrorLogger.LogError` | src/error_handler.py:125-150 | After logging, the history is the last 1000 of the old history plus the entry. |
| `ErrorHandler.ErrorLogger.GetErrorHistory` | src/error_handler.py:178-182 | No limit, or a limit of 0, gives the whole history. A positive limit gives the last `limit` entries. A negative limit gives Python's `[-limit:]`. |
| `ErrorHandler.ErrorLogger.ClearHistory` | src/error_handler.py:184-186 | The history becomes empty. |
| `ErrorHandler.FirstRecovery` | src/error_handler.py:226-237 | The handlers run in registration order. The first that recovers wins; every earlier one failed or raised. |
| `ErrorHandler.FirstRecoveryAppend` | src/error_handler.py:206-210 | A handler registered later is consulted only when none registered earlier recovers. |
| `ErrorHandler.ErrorKey` | src/error_handler.py:216 | The counter key begins with the value of its own category and of no other. |
| `ErrorHandler.ErrorKeyInjective` | src/error_handler.py:216 | Two errors share a counter exactly when they have the same category and message. |
| `ErrorHandler.WithoutPrefix` | src/error_handler.py:246-249 | It removes exactly the keys with the prefix and keeps the others' counts. |
| `ErrorHandler.ErrorRecovery.constructor` | src/error_handler.py:200-204 | No handlers, no counters, and a cap of 3. |
| `ErrorHandler.ErrorRecovery.RegisterHandler` | src/error_handler.py:206-210 | The handler is appended to its category's list. |
| `ErrorHandler.ErrorRecovery.AttemptRecovery` | src/error_handler.py:212-240 | <ul><li>At the cap: false, with nothing changed.</li><li>Otherwise the result is true iff some handler recovers; the counter then becomes 0 on success, or old+1.</li></ul> |
| `ErrorHandler.ErrorRecovery.ResetRecoveryAttempts` | src/error_handler.py:242-251 | A category removes exactly the keys starting with its value. No category clears all of them. |
| `ErrorHandler.CategoryPrefix` | src/error_handler.py:246 | One category's value is a prefix of another category's key only when they are the same category. |
| `ErrorHandler.ResetClearsCategory` | src/error_handler.py:242-251 | Resetting a category clears the counter of an error exactly when that error belongs to the category. |
| `ErrorHandler.DialogTitle` | src/error_handler.py:310-319 | Every level has its own title, so the fallback title is never used. |
| `ErrorHandler.FirstFriendly` | src/error_handler.py:331-335 | It finds the first table key that occurs in the message, ignoring case. |
| `ErrorHandler.FormatUserMessage` | src/error_handler.py:321-337 | The message is replaced by the friendly text of the first key it contains, and is returned unchanged when it contains none. |
| `ErrorHandler.PermissionDeniedIsFriendly` | src/error_handler.py:324-333 | A message containing "permission denied", in any case, gets that entry's text. |
| `ErrorHandler.ErrorDialog` | src/error_handler.py:263-289 | <ul><li>The title is the level's title.</li><li>The text starts with the formatted message.</li><li>An error box is used exactly for ERROR/CRITICAL, a warning box exactly for WARNING.</li></ul> |
| `ErrorHandler.UserNotification.constructor` | src/error_handler.py:257-261 | Empty history and screen, with a bound of 100. |
| `ErrorHandler.UserNotification.AddToHistory` | src/error_handler.py:339-343 | The history becomes the last 100 of the old history plus the entry. |
| `ErrorHandler.UserNotification.ShowErrorDialog` | src/error_handler.py:263-289 | Unless the dialog raises, the box is shown and the error joins the bounded history. Otherwise nothing changes. |
| `ErrorHandler.ErrorSuggestion` | src/error_handler.py:432-441 | There is no suggestion exactly for SYSTEM, UI and APPLICATION. |
| `ErrorHandler.RecoveryAction` | src/error_handler.py:443-450 | There is a recovery action exactly for CONFIG, FILE_IO and RESOURCE. |
| `ErrorHandler.CreateErrorInfo` | src/error_handler.py:412-430 | The record carries the level, the category and the message, plus the category's suggestion and recovery action. |
| `ErrorHandler.GlobalErrorHandler.constructor` | src/error_handler.py:353-364 | With the hook setup as intended, the default handlers are registered for CONFIG, FILE_IO and RESOURCE, and every history starts empty. |
| `ErrorHandler.RegisterDefaultRecoveryHandlers` | src/error_handler.py:452-461 | On a recovery with no handlers yet, exactly CONFIG, FILE_IO and RESOURCE get one handler each, and the counters are unchanged. |
| `ErrorHandler.RecoverConfig` | src/error_handler.py:463-469 | Every configuration error is reported as recovered. |
| `ErrorHandler.RecoverFileIo` | src/error_handler.py:471-477 | A file I/O error is never reported as recovered, and the handler does not raise. |
| `ErrorHandler.RecoverResource` | src/error_handler.py:479-485 | A resource error is never reported as recovered, and the handler does not raise. |
| `ErrorHandler.LocalNames` | src/error_handler.py:487-495 | A name is local to a function body exactly when the body binds it somewhere. |
| `ErrorHandler.ReadBeforeBindFails` | src/error_handler.py:493-494 | Reading a local name before any statement binds it keeps the body from completing. |
| `ErrorHandler.ResolvedCompletes` | src/error_handler.py:487-495 | A body whose every read follows a binding or names a parameter or global completes. |
| `ErrorHandler.SetupHooksAsWrittenRaises` | src/error_handler.py:487-495 | The hook setup as written raises `UnboundLocalError` on `threading` (see Findings). |
| `ErrorHandler.SetupHooksFixedCompletes` | src/error_handler.py:487-495 | With `threading` imported first, the hook setup completes. |
| `ErrorHandler.GlobalErrorHandler.LogAndRecover` | src/error_handler.py:381-392 | <ul><li>Recovery is attempted only when asked.</li><li>The result is true iff the key is under the cap and a handler recovers.</li><li>The handlers are unchanged; the counters are those of one `attempt_recovery` (unchanged at the cap, otherwise reset on a recovery or raised by one), or unchanged when recovery is not asked for.</li><li>The log gets the error, and a notice after a recovery.</li></ul> |
| `ErrorHandler.GlobalErrorHandler.HandleError` | src/error_handler.py:366-410 | It returns the recovery result, and leaves the handlers and counters as `LogAndRecover` does, so the cap holds across calls. A dialog is shown exactly when asked for, recovery failed, the level is WARNING or above, and the box does not raise. |
| `AutoStartup.CurrentExecutablePath` | src/auto_startup.py:113-136 | A packaged build, or an empty `argv[0]`, gives `sys.executable`. A `.py` script gives `"python" "script"`. Anything else gives the absolute `argv[0]`. |
| `AutoStartup.ValidatePath` | src/auto_startup.py:138-169 | <ul><li>Valid iff there is no error.</li><li>An empty path has its own error.</li><li>A plain path is valid iff it is an existing file.</li></ul> |
| `AutoStartup.ScriptCommandSplit` | src/auto_startup.py:146-147 | The first `" "` in a script command line is the one after the interpreter. |
| `AutoStartup.ScriptCommandValidates` | src/auto_startup.py:145-158 | The command line registered for a script validates exactly when both the interpreter and the script exist. |
| `AutoStartup.Registry.constructor` | src/auto_startup.py:26 | The `Run` key holds the given values. |
| `AutoStartup.WindowsAutoStartup.constructor` | src/auto_startup.py:28-31 | The application path is the current executable path. |
| `AutoStartup.WindowsAutoStartup.IsEnabled` | src/auto_startup.py:33-45 | Enabled iff the value under the application name equals the application path. An access failure gives false and its error text. |
| `AutoStartup.EnabledIn` | src/auto_startup.py:33-45 | A missing value means disabled. A present value means enabled exactly when it equals the application path. |
| `AutoStartup.WindowsAutoStartup.Enable` | src/auto_startup.py:47-66 | On success the value is written under the name; on a fault the key is unchanged. |
| `AutoStartup.WindowsAutoStartup.Disable` | src/auto_startup.py:68-85 | The value is removed; an absent value counts as removed. On a fault the key is unchanged. |
| `AutoStartup.WindowsAutoStartup.GetInfo` | src/auto_startup.py:87-97 | It reports the name, the path, the key and the enabled state, or the access error. |
| `AutoStartup.WindowsAutoStartup.Toggle` | src/auto_startup.py:99-111 | <ul><li>A read error: nothing is written.</li><li>Otherwise the new state is the negation of the old one.</li><li>Without a write fault the `Run` map is exactly `Toggled` of the old one; with one, it is unchanged and the enable or disable error is reported.</li></ul> |
| `AutoStartup.Toggled` | src/auto_startup.py:99-111 | A toggled `Run` map flips the enabled state and leaves every other entry as it was. |
| `AutoStartup.ToggleTwice` | src/auto_startup.py:99-111 | Two toggles without faults give back the original enabled state. |
| `AutoStartup.AutoStartupManager.constructor` | src/auto_startup.py:175-178 | Records the platform and builds the Windows helper. |
| `AutoStartup.AutoStartupManager.GetStatus` | src/auto_startup.py:188-199 | Off Windows: disabled, with the "Windows only" error. On Windows it gives the helper's information: the name, path and key, and either the enabled state or the exact access error. |
| `AutoStartup.AutoStartupManager.SetEnabled` | src/auto_startup.py:201-218 | <ul><li>Off Windows: failure.</li><li>A matching state: success with no write.</li><li>Otherwise it enables or disables. Success leaves the registry in the requested state.</li></ul> |
| `AutoStartup.AutoStartupManager.ToggleStartup` | src/auto_startup.py:220-225 | <ul><li>Off Windows: failure.</li><li>A read fault: failure with the access error, nothing written.</li><li>Without faults the `Run` map is exactly `Toggled` of the old one; a write fault leaves it unchanged.</li></ul> |
| `AutoStartup.AutoStartupManager.ValidateInstallation` | src/auto_startup.py:227-237 | The application's own command line, computed at start-up (`info.app_path`), is checked against the file system. The value stored under the `Run` key is not consulted. Off Windows, and on a registry fault, it fails with the error. |
| `AutoStartup.AutoStartupManager.RepairStartup` | src/auto_startup.py:239-263 | <ul><li>Not enabled (or unreadable): "no repair needed", with no change.</li><li>Enabled: disable and then enable; the value is restored and the repair message is given.</li><li>Each failure gives its message and the state it leaves.</li></ul> |
| `SystemTray.DefaultMenu` | src/system_tray.py:60-66 | A new menu is exactly settings, separator, exit. |
| `SystemTray.InsertItem` | src/system_tray.py:126-132 | The item goes just before a trailing exit item, otherwise at the end, and the length grows by one. |
| `SystemTray.InsertKeepsOrder` | src/system_tray.py:126-132 | The exit item stays last, and every other item keeps its place. |
| `SystemTray.FirstTitled` | src/system_tray.py:136-139 | The scan finds the first item with the title, or reports that none has it. |
| `SystemTray.RemoveFirst` | src/system_tray.py:134-140 | Only the first item with the title is deleted, and the list is unchanged if none has it. |
| `SystemTray.AddThenRemove` | src/system_tray.py:126-140 | Adding an item under a new title and then removing that title gives the menu back. |
| `SystemTray.SystemTray.constructor` | src/system_tray.py:48-58 | The default menu, no callbacks, invisible. |
| `SystemTray.SystemTray.Show` | src/system_tray.py:68-102 | <ul><li>Unavailable, or creation raises: false and invisible.</li><li>Already visible: true, with nothing created.</li><li>Otherwise one icon is created and it becomes visible.</li></ul> |
| `SystemTray.SystemTray.Hide` | src/system_tray.py:104-111 | The tray becomes invisible. |
| `SystemTray.SystemTray.UpdateMenu` | src/system_tray.py:117-124 | The menu becomes the given items. A visible icon is recreated. The callbacks and whether an icon exists are unchanged. |
| `SystemTray.SystemTray.AddMenuItem` | src/system_tray.py:126-132 | The menu becomes the insertion of the item. |
| `SystemTray.SystemTray.RemoveMenuItem` | src/system_tray.py:134-140 | It is true iff an item has the title, and the menu loses its first such item. |
| `SystemTray.SystemTray.SetCallback` | src/system_tray.py:142-144 | The callback is stored under the event. |
| `SystemTray.SystemTray.OnSettings` | src/system_tray.py:225-232 | The settings callback, if registered, is scheduled. |
| `SystemTray.SystemTray.OnExit` | src/system_tray.py:234-244 | A registered exit callback runs. Otherwise the tray hides and the default exit follows. |
| `SystemTray.SystemTrayManager.constructor` | src/system_tray.py:276-280 | No tray yet, and enabled. |
| `SystemTray.SystemTrayManager.Initialize` | src/system_tray.py:282-291 | It succeeds iff the tray library is available, and then creates a fresh tray: the default menu, no callbacks, no icon, invisible. |
| `SystemTray.SystemTrayManager.Start` | src/system_tray.py:293-298 | Disabled or uninitialised: false. Otherwise it is the tray's `show`. The tray's menu and callbacks are unchanged, and an icon exists afterwards iff it did before or the start succeeded. |
| `SystemTray.SystemTrayManager.Stop` | src/system_tray.py:300-303 | Nothing is running afterwards. The tray's menu, callbacks and icon are unchanged. |
| `SystemTray.SystemTrayManager.SetEnabled` | src/system_tray.py:326-333 | The flag is stored. False stops the tray; true starts it. The tray's menu and callbacks are unchanged. |
| `SystemTray.SystemTrayManager.AddMenuItem` | src/system_tray.py:315-319 | The item is inserted into an existing tray's menu; nothing else of the tray changes. |
| `SystemTray.SystemTrayManager.IsRunning` | src/system_tray.py:305-307 | `None` when no tray exists. Otherwise the tray's visibility. |
| `SystemTray.SystemTrayManager.GetStatus` | src/system_tray.py:339-346 | It reports availability, the enabled flag, `is_running()` and the name. `running` is `None` before a tray exists, and the tray's visibility after. |
| `SystemTray.StatusBeforeInitialize` | src/system_tray.py:276-346 | A manager that has not been initialised reports available as given, enabled, `running` as `None`, and its name. |
| `FloatingIcon.ClampCoord` | src/floating_icon.py:476-477 | The coordinate is at most `limit`. When `limit >= 0` it lands in [0, limit], unchanged when already there and otherwise moved to the nearest value in range. A negative limit (an icon wider than the display) gives the limit itself, as `min(max_x, max(0, x))` does. |
| `FloatingIcon.Clamp` | src/floating_icon.py:462-482 | Each coordinate is clamped against the display size less the icon size. |
| `FloatingIcon.ClampOnScreen` | src/floating_icon.py:462-482 | An icon that fits on the display is placed wholly on it. |
| `FloatingIcon.ClampIdempotent` | src/floating_icon.py:462-482 | Clamping twice is the same as clamping once. |
| `FloatingIcon.Coerce` | src/floating_icon.py:62-63 | A value that is not a number or string gives the default. An `int` gives itself. |
| `FloatingIcon.InitialPosition` | src/floating_icon.py:57-66 | <ul><li>Without an `icon_position` mapping holding both `x` and `y`, the icon starts at (100, 100).</li><li>Otherwise, when both coordinates convert by `int()`, the position is `(max(0, x), max(0, y))`.</li><li>Integer coordinates are used as they are.</li><li>A coordinate that makes `int()` raise gives (100, 100).</li><li>A coordinate that is not a number or string counts as 100.</li></ul> |
| `FloatingIcon.InitialSize` | src/floating_icon.py:68-73 | <ul><li>Without `icon_size` the size is 32.</li><li>A size that converts by `int()` gives `max(16, int(size))`.</li><li>An integer size `s` gives `max(16, s)`.</li><li>A size that makes `int()` raise gives 32.</li></ul> |
| `FloatingIcon.UnparsablePositionDefault` | src/floating_icon.py:60-66 | A coordinate that `int()` cannot parse, such as `"x"`, puts the icon at (100, 100), whatever the other coordinate is. |
| `FloatingIcon.LetterCoordinateUnparsable` | src/floating_icon.py:62 | `int("x")` raises, so the coordinate `"x"` has no value. |
| `FloatingIcon.FloatSizeTruncated` | src/floating_icon.py:70-71 | A float size is truncated by `int()`: 40.75 gives 40. The minimum of 16 applies after truncation: 9.5 gives 16. |
| `FloatingIcon.InitialPositionDefault` | src/floating_icon.py:43-66 | Without a position mapping the icon starts at (100, 100). |
| `FloatingIcon.WithPosition` | src/floating_icon.py:400-402 | The saved mapping holds the position under `icon_position`. |
| `FloatingIcon.SavedPositionReadBack` | src/floating_icon.py:393-407 | A saved position is read back as the same starting position. |
| `FloatingIcon.StoredPositionRestored` | src/floating_icon.py:393-407 | A position stored in the live file loads and gives that starting position. |
| `FloatingIcon.FloatingIcon.constructor` | src/floating_icon.py:37-73 | Position and size come from the configuration. The icon is hidden, with no callbacks, no drag in progress, and dragging on. |
| `FloatingIcon.FloatingIcon.Show` | src/floating_icon.py:75-91 | It succeeds iff a window exists or creating one works. Visible afterwards iff it succeeded or was visible before. Position, size, callbacks and drag state are unchanged. |
| `FloatingIcon.FloatingIcon.Hide` | src/floating_icon.py:93-106 | It succeeds iff a window exists, which then becomes invisible. Everything else is unchanged. |
| `FloatingIcon.FloatingIcon.UpdatePosition` | src/floating_icon.py:108-121 | The position becomes the clamped pair; the result is true. Everything else is unchanged. |
| `FloatingIcon.FloatingIcon.UpdateSize` | src/floating_icon.py:123-138 | A non-positive size is rejected and the size is unchanged. Otherwise the size becomes exactly the given one. Everything else is unchanged. |
| `FloatingIcon.FloatingIcon.SetClickCallback` | src/floating_icon.py:140-142 | The click callback is stored; everything else is unchanged. |
| `FloatingIcon.FloatingIcon.SetRightClickCallback` | src/floating_icon.py:144-146 | The right-click callback is stored; everything else is unchanged. |
| `FloatingIcon.FloatingIcon.LeftClick` | src/floating_icon.py:165-168 | The registered click callback, if any, is invoked. |
| `FloatingIcon.FloatingIcon.RightClick` | src/floating_icon.py:170-173 | The registered right-click callback, if any, is invoked. |
| `FloatingIcon.FloatingIcon.SetDragEnabled` | src/floating_icon.py:409-411 | The drag flag is stored; everything else is unchanged. |
| `FloatingIcon.FloatingIcon.DragStart` | src/floating_icon.py:354-359 | Only while dragging is enabled, it records the cursor and the current position. Everything else is unchanged. |
| `FloatingIcon.FloatingIcon.Drag` | src/floating_icon.py:361-383 | During an enabled drag the position becomes the clamp of the anchor position plus the cursor's movement. Otherwise the position is unchanged. Nothing else changes. |
| `FloatingIcon.FloatingIcon.SavePositionToConfig` | src/floating_icon.py:393-407 | <ul><li>The save is reported iff the load gives an object whose update with the position passes the basic check and I/O works.</li><li>The new store is the load's store followed by the save of the updated configuration.</li><li>A reported save left the position in the live configuration file.</li></ul> |
| `FloatingIcon.FloatingIcon.DragEnd` | src/floating_icon.py:385-391 | <ul><li>The position is saved only if a drag started, and the drag state is cleared.</li><li>If a drag started, the save happens exactly when it can, and the store is left as by `SavePositionToConfig`.</li><li>Visibility, window, callbacks and the drag flag are unchanged.</li></ul> |
| `FloatingIcon.DragWhileDisabled` | src/floating_icon.py:356-363 | While dragging is off, a drag start and drag motion never move the icon. |
| `SettingsWindow.InitVars` | src/settings_window.py:46-54 | The variables exist afterwards iff they existed before or a Tk root exists. |
| `SettingsWindow.TabLoad` | src/settings_window.py:82-90 | Loading keeps the tab's kind, and creates its variables when a root exists. The same holds for the appearance (276-289) and general (377-385) tabs. |
| `SettingsWindow.AppLoad` | src/settings_window.py:82-90 | The path, the name and the arguments are set from `app_path`, `app_name` and `app_args`. A missing key gives `""`. |
| `SettingsWindow.LookLoad` | src/settings_window.py:276-289 | <ul><li>The size and the opacity come from `icon_size` and `icon_opacity`, or 32 and 0.9 when missing.</li><li>A missing `icon_position` gives (100, 100).</li><li>A mapping gives its `x` and `y`, each 100 when missing.</li><li>Any other value leaves the coordinates as they were.</li></ul> |
| `SettingsWindow.GeneralLoad` | src/settings_window.py:377-385 | The three flags come from `auto_start`, `show_tray_icon` and `drag_enabled`. When missing they are false, true and true. |
| `SettingsWindow.TabSave` | src/settings_window.py:92-101 | A tab without variables saves `{}`. |
| `SettingsWindow.AppSave` | src/settings_window.py:92-101 | The application tab saves exactly `app_path`, `app_name` and `app_args`. |
| `SettingsWindow.LookSave` | src/settings_window.py:291-303 | The appearance tab saves exactly `icon_size`, `icon_position` and `icon_opacity`. |
| `SettingsWindow.GeneralSave` | src/settings_window.py:387-396 | The general tab saves exactly `auto_start`, `show_tray_icon` and `drag_enabled`. |
| `SettingsWindow.AppRoundTrip` | src/settings_window.py:82-101 | Loading the application tab's saved settings back and saving again gives the same settings. |
| `SettingsWindow.LookRoundTrip` | src/settings_window.py:276-303 | The same for the appearance tab, including the nested `icon_position`. |
| `SettingsWindow.GeneralRoundTrip` | src/settings_window.py:377-396 | The same for the general tab. |
| `SettingsWindow.TabRoundTrip` | src/settings_window.py:82-101 | For a tab of any kind, loading its own settings back and saving again gives the same settings (also lines 276-303 and 377-396). |
| `SettingsWindow.PathChecks` | src/settings_window.py:156-167 | The path passes iff it is an existing file with a lowercased extension in {.exe, .bat, .cmd, .com}. A missing path has its own message. |
| `SettingsWindow.ValidateApplicationPath` | src/settings_window.py:150-170 | <ul><li>True iff the path is non-blank (not only characters that `str.isspace()` accepts), is a file, and has an accepted extension; the accepted message accompanies true.</li><li>A blank path and a missing path each have their own message.</li></ul> |
| `SettingsWindow.AppearanceCheck` | src/settings_window.py:305-323 | It passes iff the size is in [16, 128], both coordinates are at least 0, and the opacity is in [0.1, 1.0]. Checks run in that order, and each failing check gives its own message only when every earlier check passed: <ul><li>a size outside [16, 128] gives the size message;</li><li>a negative coordinate gives the position message;</li><li>an opacity outside [0.1, 1.0] gives the opacity message.</li></ul> A `get()` that fails raises, and the tab raises only when a `get()` fails. |
| `SettingsWindow.TabCheck` | src/settings_window.py:103-123 | A failure carries a non-empty message. The general tab, and any tab without variables, passes. |
| `SettingsWindow.AppCheck` | src/settings_window.py:103-123 | The application tab passes iff its path, stripped of the white space `str.strip()` removes, is non-empty, a file, and has an accepted extension. It raises iff the path cannot be read. A failure has a message. |
| `SettingsWindow.ApplicationChecksAgree` | src/settings_window.py:103-170 | On a path without surrounding spaces, the tab check and `validate_application_path` agree. |
| `SettingsWindow.Reported` | src/settings_window.py:514-518 | A tab contributes a message exactly when it fails. |
| `SettingsWindow.CollectErrorsAppend` | src/settings_window.py:514-518 | Messages from consecutive tabs come out in tab order. |
| `SettingsWindow.CollectErrorsEmpty` | src/settings_window.py:510-521 | No errors are collected exactly when no tab fails. |
| `SettingsWindow.CollectErrorsThree` | src/settings_window.py:514-518 | For the three tabs, the errors are the application, appearance and general tabs' messages, in that order. |
| `SettingsWindow.AllPassNoErrors` | src/settings_window.py:510-521 | Every tab passing means no errors. |
| `SettingsWindow.Saves` | src/settings_window.py:471-474 | It fails exactly when some tab's save raises. Otherwise it gives each tab's settings in order. |
| `SettingsWindow.MergeKeys` | src/settings_window.py:526-530 | A key is in the merge exactly when some tab saved it. |
| `SettingsWindow.MergeLastWins` | src/settings_window.py:526-530 | The last tab that saved a key decides its value. |
| `SettingsWindow.LoadAll` | src/settings_window.py:534-542 | Every tab loads the same configuration. |
| `SettingsWindow.ReloadedSaves` | src/settings_window.py:534-542 | Tabs whose settings lie within a configuration save the same settings after loading it. |
| `SettingsWindow.CollectedOfThree` | src/settings_window.py:523-532 | When the three tabs save, the collected settings are their merge in tab order. |
| `SettingsWindow.SettingsRoundTrip` | src/settings_window.py:523-542 | Loading the window's current settings back into its tabs leaves the settings unchanged. |
| `SettingsWindow.ResetReportsOnlyMissingPath` | src/settings_window.py:500-521 | After a reset every tab holds the defaults, and the only error is the unset application path. |
| `SettingsWindow.SettingsWindow.constructor` | src/settings_window.py:406-423 | The three tabs, in order, with their variables, and no callbacks. |
| `SettingsWindow.SettingsWindow.SetCallback` | src/settings_window.py:544-546 | The callback is stored under the event. |
| `SettingsWindow.SettingsWindow.ValidateSettings` | src/settings_window.py:510-521 | The errors are the failing tabs' messages in order. The result is valid iff no tab fails. |
| `SettingsWindow.SettingsWindow.SaveAll` | src/settings_window.py:471-474 | The loop gives the in-order merge of the tabs' settings. |
| `SettingsWindow.SettingsWindow.GetCurrentSettings` | src/settings_window.py:523-532 | It returns the in-order merge, or `{}` when a tab raises. |
| `SettingsWindow.SettingsWindow.LoadAllTabs` | src/settings_window.py:537-540 | Every tab loads the configuration. |
| `SettingsWindow.SettingsWindow.ResetToDefaults` | src/settings_window.py:500-508 | Every tab loads the defaults, and the result is true. |
| `SettingsWindow.SettingsWindow.LoadSettingsToUi` | src/settings_window.py:534-542 | <ul><li>Given a configuration, the tabs load it and the store is untouched.</li><li>Otherwise the tabs load what `load_config` returns, or stay as they were when it raises, and the store is the one that load leaves.</li></ul> |
| `SettingsWindow.SettingsWindow.CheckTabs` | src/settings_window.py:464-468 | The validation loop passes iff every tab passes. |
| `SettingsWindow.SettingsWindow.StoreSettings` | src/settings_window.py:476-479 | <ul><li>It writes nothing iff the load raises.</li><li>Otherwise it writes exactly the loaded configuration with every given key laid over it.</li><li>The new store is the load's store followed by the save of that write.</li><li>A write that passes the basic check becomes the live file.</li></ul> |
| `SettingsWindow.SettingsWindow.ApplySettings` | src/settings_window.py:460-488 | <ul><li>If a tab fails or raises, nothing is saved and the result is false.</li><li>Otherwise it writes exactly the loaded configuration with the tabs' merged keys laid over it, and the new store is the load's store followed by that save; when the load raises, the store is the one the load leaves.</li><li>The result is true even when the save fails, unless the apply callback raises.</li></ul> |
| `Text.ContainsIff` | src/app_launcher.py:341 | Python's `sub in s` holds exactly when `sub` occurs at some position. |
| `Text.Find` | src/auto_startup.py:147 | `find` gives the first occurrence, or nothing when there is none. |
| `Text.FindFirst` | src/auto_startup.py:147 | An occurrence with none before it is what `find` returns. |
| `Text.StrLessTotal` | src/config_manager.py:356 | Distinct strings are ordered one way or the other. |
| `Text.IntToStringRoundTrip` | src/floating_icon.py:62-63 | `int(str(n)) == n`. |
| `Text.ParseIntRejectsLetter` | src/floating_icon.py:62-63 | `int()` of a one-letter string raises. |
| `Json.PyInt` | src/floating_icon.py:62-70 | `int()` of an int, a float or a str: the int itself, truncation toward zero, or the parse. |
| `Paths.PathSuffix` | src/app_launcher.py:160 | `Path(p).suffix` is empty, or a dot-led ending of the path. |
| `Paths.SplitExt` | src/settings_window.py:163 | `splitext`'s extension is empty, or a dot-led ending of the path. |

## Left out

- **File, JSON and clock I/O.** Byte-level file I/O, JSON text and the clock are abstract: files are parsed values or "malformed", and times are parameters. Partial writes, encodings and `indent`/`ensure_ascii` are not modelled.
- **Logging side effects.** Log file handlers and the logging setup (`src/error_handler.py:63-123`), log formatting, and the `print` fallbacks are side effects on the console and the disk.
- **Interpreter error hooks.** `GlobalErrorHandler._setup_system_error_handlers` and the uncaught-exception hooks (`src/error_handler.py:487-519`) install interpreter-wide hooks; only the name resolution of the setup is modelled (see Findings).
- **Widgets and drawing.**
  - Widget construction and drawing: windows, canvases, the notebook, buttons, the tray image and the floating icon's painting.
  - Hover effects, `refresh`, `_update_display`.
  - The settings window's `show`/`hide`/`destroy`/`cancel_settings`, `_browse_app_path`, `browse_application`, `get_application_info`.
  - `messagebox` calls: only their kind, title and text are modelled in `ErrorHandler.ErrorDialog`.
- **Threads and notifications.** The tray thread, `_run_tray`, `_schedule_callback`'s thread, `show_notification` and `notify` are concurrency over a foreign library. A scheduled callback is returned rather than run.
- **Process APIs.** psutil process queries and `get_process_info` are foreign calls. Processes are a table of `(pid, name, exe, cmdline, terminable)`, and an access error is an entry that cannot be terminated.
- **Launch timing.** `execution_time` is a float timing measurement.
- **The `winreg` API.** The registry is a map, and each call's failure is a fault parameter. The non-Windows `import winreg` failure is the manager's `supported` flag.
- **`_get_display_info` and `_get_dpi_scale`.** They create Tk roots and measure the screen. The display is a parameter; a probe that fails gives 1920x1080, as the code does at `src/floating_icon.py:444-451`. Multi-monitor bounds are not modelled.
- **`src/performance_monitor.py`, `build.py`, `main.py`.** These are sampling threads, packaging and application wiring; they are not part of this model.
- `FloatingIcon.Clamp`: the fallback inside `_ensure_position_in_bounds` (`src/floating_icon.py:479-482`, clamping to zero only) is not modelled. The display probe catches its own errors, so that branch cannot be reached.
- `FloatingIcon.FloatingIcon.constructor`: it takes the loaded configuration mapping rather than calling `load_config` itself.
- `SettingsWindow.StrGet`: tkinter's `StringVar.get()` never raises; it returns the text Tcl holds for whatever value was set. The model reads only strings, and integers as their decimal text. It treats a bool, float, null, array or object as unreadable, because the Tcl text of those values is not modelled. For such a value under `app_path`, `app_name` or `app_args`, `AppSave`, `AppCheck`, `GetCurrentSettings` and `ApplySettings` therefore report a raise where tkinter would return that text.
- `SettingsWindow.IntGet`, `SettingsWindow.RealGet`: Tcl's conversion of text held in an `IntVar` or `DoubleVar` is not modelled, so a string value reads as unreadable and `get()` raises.
- `SettingsWindow.BoolGet`: `BooleanVar.set` converts its value with `getboolean` when a tab loads, so a value that is not a boolean makes `load_settings` raise. The model stores the value and fails at `get()`, during save, instead. Conversion of text by `getboolean` is not modelled; only bools and ints are accepted.
- `ErrorHandler.GlobalErrorHandler.constructor`: it models the intended constructor, which completes. As written, `__init__` always raises `UnboundLocalError` in `_setup_system_error_handlers`, after replacing `sys.excepthook` (see Findings).
- `SettingsWindow.SettingsWindow.ApplySettings`: the effect of the `apply` callback is not modelled, only whether it raises.
- **Floats.** Floats are exact reals, so rounding and the `int(inf)` `OverflowError` are not modelled.
- `AppLauncher.ValidateSecurity`: the forbidden characters are a Python set, so the one reported first is not fixed. The contract says only that the reported character occurs in the path.
- `AppLauncher.ProcessTable.LaunchApplication`: the started process's name and executable are what the spawn outcome reports. For a `.bat` or `.cmd` file they are the command interpreter's (`BatchLaunchNotRunning`), so `LaunchThenCheck` promises "running" only when the process runs the launched file itself. There is no timeout and the process never exits by itself. Only `terminate()` calls are recorded; processes are not removed.
- **`ntpath`.** `os.path.normpath` and `abspath` are parameters. `isabs` follows the rules of Python 3.12 and earlier. UNC drives in `splitdrive` are not modelled.
- **Case folding.** `str.lower()` folds ASCII letters only.
- `Json.PyInt`: `int()` of a string reads only the ASCII digits 0-9. Python's `int()` also accepts every other Unicode decimal digit, such as the fullwidth `"３２"`. The model gives no result for such a string. Whitespace that `strip()` removes follows the full `str.isspace()` set.
- `ConfigManager.ConfigStore.CleanupOldBackups`: the limit is a natural number; `backup_config` always calls it with the default limit, 5.
- `ConfigManager.ConfigStore.RestoreFromBackup`: the backup is chosen by its name within the backup directory, not by an arbitrary path.
- **Outer exception handlers.** Outer `except Exception` handlers around code that cannot raise in the model are not modelled.

## Findings

| source | as written | input that shows it | evidently intended | confidence | as-written member | corrected member |
|---|---|---|---|---|---|---|
| src/config_manager.py:357 | `backup_files[:-max_backups]` is taken as the backups to delete | `max_backups = 0` with one or more backups: `[:-0]` is `[]`, so nothing is deleted | keep at most `max_backups` backups, deleting the oldest (so 0 deletes all) | not executed | `ConfigManager.CleanupZeroKeepsAll` | `ConfigManager.CleanupBound` |
| src/error_handler.py:493-494 | `hasattr(threading, 'excepthook')` reads `threading` before `import threading` in the same function, which makes the name local to the whole body | any construction of `GlobalErrorHandler` raises `UnboundLocalError` after `sys.excepthook` was replaced, whatever the Python version | import `threading` before testing it, so the thread hook is installed and the constructor completes | not executed | `ErrorHandler.SetupHooksAsWrittenRaises` | `ErrorHandler.SetupHooksFixedCompletes` |
