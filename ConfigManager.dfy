/**
 * The configuration store of the floating launcher: the default settings,
 * the strict validator and the looser type check applied before saving, and
 * the life cycle of `config.json` with its rotating `backups/` directory.
 *
 * The live file and the backup directory are abstract state: a file holds a
 * parsed JSON document or text that does not parse; a backup is a named file
 * with a modification time. Disk failures are one flag, `ioFails`, under
 * which every open, copy and write raises `OSError`.
 */
module ConfigManager {
  import opened Text
  import opened Json

  // ---------------------------------------------------------------------
  // Defaults and validation

  /** The six settings every configuration carries, in the order the validators visit them. */
  datatype ConfigKey = AppPath | IconPosition | IconFixed | AutoStart | IconSize | Version

  function KeyName(k: ConfigKey): string
  {
    match k
    case AppPath => "app_path"
    case IconPosition => "icon_position"
    case IconFixed => "icon_fixed"
    case AutoStart => "auto_start"
    case IconSize => "icon_size"
    case Version => "version"
  }

  /** Position of a key in `RequiredKeys`. */
  function KeyRank(k: ConfigKey): nat
  {
    match k
    case AppPath => 0
    case IconPosition => 1
    case IconFixed => 2
    case AutoStart => 3
    case IconSize => 4
    case Version => 5
  }

  const RequiredKeys: seq<ConfigKey> := [AppPath, IconPosition, IconFixed, AutoStart, IconSize, Version]

  lemma RequiredKeysComplete(k: ConfigKey)
    ensures k in RequiredKeys && RequiredKeys[KeyRank(k)] == k
  {
  }

  function DefaultConfig(): (r: map<string, Json>)
    ensures forall k: ConfigKey :: KeyName(k) in r
    ensures forall name :: name in r ==> exists k: ConfigKey :: KeyName(k) == name
  {
    assert KeyName(AppPath) == "app_path" && KeyName(IconPosition) == "icon_position";
    assert KeyName(IconFixed) == "icon_fixed" && KeyName(AutoStart) == "auto_start";
    assert KeyName(IconSize) == "icon_size" && KeyName(Version) == "version";
    map[
      "app_path" := JStr(""),
      "icon_position" := JObject(map["x" := JInt(100), "y" := JInt(100)]),
      "icon_fixed" := JBool(false),
      "auto_start" := JBool(false),
      "icon_size" := JInt(32),
      "version" := JStr("1.0.0")]
  }

  /** What the validators report; `Message` gives the text the user sees. */
  datatype ConfigError =
    | MissingKey(key: ConfigKey)
    | NotString(key: ConfigKey)
    | PositionNotDict
    | CoordMissing(coord: string)
    | CoordNotInt(coord: string)
    | CoordOutOfRange(coord: string)
    | NotBool(key: ConfigKey)
    | SizeNotInt
    | SizeOutOfRange
    | NotAMapping
    | WrongType(key: ConfigKey, typeName: string)

  function Message(e: ConfigError): string
  {
    match e
    case MissingKey(k) => "必須キー '" + KeyName(k) + "' が存在しません"
    case NotString(k) => KeyName(k) + " は文字列である必要があります"
    case PositionNotDict => "icon_position は辞書である必要があります"
    case CoordMissing(c) => "icon_position." + c + " が存在しません"
    case CoordNotInt(c) => "icon_position." + c + " は整数である必要があります"
    case CoordOutOfRange(c) => "icon_position." + c + " は -32768 から 32767 の範囲内である必要があります"
    case NotBool(k) => KeyName(k) + " はブール値である必要があります"
    case SizeNotInt => "icon_size は整数である必要があります"
    case SizeOutOfRange => "icon_size は 16 から 128 の範囲内である必要があります"
    case NotAMapping => "設定は辞書形式である必要があります"
    case WrongType(k, t) => KeyName(k) + " は " + t + " 型である必要があります"
  }

  predicate RankIncreasing(keys: seq<ConfigKey>)
  {
    forall i, j :: 0 <= i < j < |keys| ==> KeyRank(keys[i]) < KeyRank(keys[j])
  }

  /** One "missing key" error per absent key, in the order of `keys`. */
  function MissingKeyErrors(config: map<string, Json>, keys: seq<ConfigKey>): (r: seq<ConfigError>)
    requires RankIncreasing(keys)
    ensures forall i :: 0 <= i < |r| ==> r[i].MissingKey? && KeyName(r[i].key) !in config
    ensures forall j :: 0 <= j < |keys| && KeyName(keys[j]) !in config ==> MissingKey(keys[j]) in r
    ensures forall i, j :: 0 <= i < j < |r| ==> KeyRank(r[i].key) < KeyRank(r[j].key)
    ensures |keys| > 0 ==> forall i :: 0 <= i < |r| ==> KeyRank(keys[0]) <= KeyRank(r[i].key)
  {
    if |keys| == 0 then []
    else
      var rest := MissingKeyErrors(config, keys[1..]);
      assert forall i :: 0 <= i < |rest| ==> KeyRank(keys[0]) < KeyRank(rest[i].key);
      (if KeyName(keys[0]) in config then [] else [MissingKey(keys[0])]) + rest
  }

  lemma RequiredKeysIncreasing()
    ensures RankIncreasing(RequiredKeys)
  {
    forall i | 0 <= i < |RequiredKeys| ensures KeyRank(RequiredKeys[i]) == i {
    }
  }

  /**
   * The missing-key pass over the required keys: exactly the absent keys,
   * each reported once, in required-key order.
   */
  function MissingRequired(config: map<string, Json>): (r: seq<ConfigError>)
    ensures forall i :: 0 <= i < |r| ==> r[i].MissingKey? && KeyName(r[i].key) !in config
    ensures forall k :: KeyName(k) !in config ==> MissingKey(k) in r
    ensures forall i, j :: 0 <= i < j < |r| ==> KeyRank(r[i].key) < KeyRank(r[j].key)
  {
    RequiredKeysIncreasing();
    var r := MissingKeyErrors(config, RequiredKeys);
    assert forall k :: KeyName(k) !in config ==> MissingKey(k) in r by {
      forall k | KeyName(k) !in config ensures MissingKey(k) in r {
        RequiredKeysComplete(k);
      }
    }
    r
  }

  function CoordCheck(pos: map<string, Json>, c: string): seq<ConfigError>
  {
    if c !in pos then [CoordMissing(c)]
    else if !IsInt(pos[c]) then [CoordNotInt(c)]
    else if !(-32768 <= IntOf(pos[c]) <= 32767) then [CoordOutOfRange(c)]
    else []
  }

  function SizeCheck(j: Json): seq<ConfigError>
  {
    if !IsInt(j) then [SizeNotInt]
    else if !(16 <= IntOf(j) <= 128) then [SizeOutOfRange]
    else []
  }

  /** The field checks of `validate_config`, run once every required key is present. */
  function FieldErrors(config: map<string, Json>): seq<ConfigError>
    requires forall k :: KeyName(k) in config
  {
    assert KeyName(AppPath) in config && KeyName(IconPosition) in config;
    assert KeyName(IconFixed) in config && KeyName(AutoStart) in config;
    assert KeyName(IconSize) in config && KeyName(Version) in config;
    var pos := config["icon_position"];
    (if config["app_path"].JStr? then [] else [NotString(AppPath)])
    + (if pos.JObject? then CoordCheck(pos.fields, "x") + CoordCheck(pos.fields, "y") else [PositionNotDict])
    + (if config["icon_fixed"].JBool? then [] else [NotBool(IconFixed)])
    + (if config["auto_start"].JBool? then [] else [NotBool(AutoStart)])
    + SizeCheck(config["icon_size"])
    + (if config["version"].JStr? then [] else [NotString(Version)])
  }

  /**
   * `validate_config`: the missing-key pass ends validation early; otherwise
   * the field checks run in order and every failure is reported.
   */
  function ValidateConfig(config: map<string, Json>): (r: (bool, seq<ConfigError>))
    ensures r.0 <==> r.1 == []
  {
    var missing := MissingRequired(config);
    if missing != [] then (false, missing)
    else
      var errors := FieldErrors(config);
      (|errors| == 0, errors)
  }

  /** A coordinate the strict validator accepts: a Python `int` in the 16-bit signed range. */
  predicate CoordOk(pos: map<string, Json>, c: string)
  {
    c in pos && IsInt(pos[c]) && -32768 <= IntOf(pos[c]) <= 32767
  }

  /** The configurations the design calls valid, stated field by field. */
  predicate StrictlyValid(config: map<string, Json>)
  {
    && "app_path" in config && config["app_path"].JStr?
    && "icon_position" in config && config["icon_position"].JObject?
    && CoordOk(config["icon_position"].fields, "x")
    && CoordOk(config["icon_position"].fields, "y")
    && "icon_fixed" in config && config["icon_fixed"].JBool?
    && "auto_start" in config && config["auto_start"].JBool?
    && "icon_size" in config && IsInt(config["icon_size"])
    && 16 <= IntOf(config["icon_size"]) <= 128
    && "version" in config && config["version"].JStr?
  }

  /** No configuration lacking a required key is strictly valid. */
  lemma AbsentKeyInvalid(config: map<string, Json>, k: ConfigKey)
    requires KeyName(k) !in config
    ensures !StrictlyValid(config)
  {
    match k
    case AppPath =>
    case IconPosition =>
    case IconFixed =>
    case AutoStart =>
    case IconSize =>
    case Version =>
  }

  /** A missing required key makes the configuration invalid on both readings. */
  lemma MissingKeyInvalid(config: map<string, Json>)
    requires MissingRequired(config) != []
    ensures !ValidateConfig(config).0 && !StrictlyValid(config)
  {
    var missing := MissingRequired(config);
    AbsentKeyInvalid(config, missing[0].key);
  }

  /** With every required key present, the field checks decide validity. */
  lemma PresentKeysIff(config: map<string, Json>)
    requires MissingRequired(config) == []
    ensures ValidateConfig(config).0 <==> StrictlyValid(config)
  {
    assert forall k :: k in RequiredKeys ==> KeyName(k) in config;
    assert KeyName(AppPath) in config && KeyName(IconPosition) in config;
    assert KeyName(IconFixed) in config && KeyName(AutoStart) in config;
    assert KeyName(IconSize) in config && KeyName(Version) in config;
  }

  /** `validate_config` accepts exactly the strictly valid configurations. */
  lemma ValidateConfigIff(config: map<string, Json>)
    ensures ValidateConfig(config).0 <==> StrictlyValid(config)
  {
    if MissingRequired(config) != [] {
      MissingKeyInvalid(config);
    } else {
      PresentKeysIff(config);
    }
  }

  /**
   * With a required key absent, validation fails and reports exactly the
   * absent keys, in required-key order, and nothing else.
   */
  lemma ValidateConfigMissingKeys(config: map<string, Json>)
    requires exists k :: KeyName(k) !in config
    ensures var r := ValidateConfig(config);
      && !r.0
      && (forall i :: 0 <= i < |r.1| ==> r.1[i].MissingKey? && KeyName(r.1[i].key) !in config)
      && (forall k :: KeyName(k) !in config ==> MissingKey(k) in r.1)
      && (forall i, j :: 0 <= i < j < |r.1| ==> KeyRank(r.1[i].key) < KeyRank(r.1[j].key))
  {
    var k :| KeyName(k) !in config;
    assert MissingKey(k) in MissingRequired(config);
  }

  lemma DefaultConfigValid()
    ensures StrictlyValid(DefaultConfig())
    ensures ValidateConfig(DefaultConfig()) == (true, [])
  {
    var d := DefaultConfig();
    var pos := map["x" := JInt(100), "y" := JInt(100)];
    assert d["icon_position"] == JObject(pos);
    assert CoordOk(pos, "x") && CoordOk(pos, "y");
    assert StrictlyValid(d);
    ValidateConfigIff(d);
  }

  /** The Python types `_basic_validation` tests against. */
  datatype PyType = PyStr | PyDict | PyBool | PyInt

  function TypeName(t: PyType): string
  {
    match t
    case PyStr => "str"
    case PyDict => "dict"
    case PyBool => "bool"
    case PyInt => "int"
  }

  /** `isinstance(j, t)`; `bool` values are instances of `int`. */
  predicate HasType(j: Json, t: PyType)
  {
    match t
    case PyStr => j.JStr?
    case PyDict => j.JObject?
    case PyBool => j.JBool?
    case PyInt => IsInt(j)
  }

  const TypeChecks: seq<(ConfigKey, PyType)> :=
    [(AppPath, PyStr), (IconPosition, PyDict), (IconFixed, PyBool),
     (AutoStart, PyBool), (IconSize, PyInt), (Version, PyStr)]

  function TypeErrors(fields: map<string, Json>, checks: seq<(ConfigKey, PyType)>): (r: seq<ConfigError>)
    ensures r == [] <==> forall i :: 0 <= i < |checks| && KeyName(checks[i].0) in fields ==> HasType(fields[KeyName(checks[i].0)], checks[i].1)
  {
    if |checks| == 0 then []
    else
      var (k, t) := checks[0];
      var rest := TypeErrors(fields, checks[1..]);
      assert forall i :: 1 <= i < |checks| ==> checks[i] == checks[1..][i - 1];
      (if KeyName(k) in fields && !HasType(fields[KeyName(k)], t) then [WrongType(k, TypeName(t))] else []) + rest
  }

  /** `_basic_validation`: a mapping whose known keys, where present, have the right type. */
  function BasicValidation(config: Json): (r: (bool, seq<ConfigError>))
    ensures r.0 <==> r.1 == []
    ensures !config.JObject? ==> r.1 == [NotAMapping]
  {
    if !config.JObject? then (false, [NotAMapping])
    else
      var errors := TypeErrors(config.fields, TypeChecks);
      (|errors| == 0, errors)
  }

  /** The type constraints of the basic check, stated key by key. */
  predicate WellTyped(m: map<string, Json>)
  {
    && ("app_path" in m ==> m["app_path"].JStr?)
    && ("icon_position" in m ==> m["icon_position"].JObject?)
    && ("icon_fixed" in m ==> m["icon_fixed"].JBool?)
    && ("auto_start" in m ==> m["auto_start"].JBool?)
    && ("icon_size" in m ==> IsInt(m["icon_size"]))
    && ("version" in m ==> m["version"].JStr?)
  }

  predicate BasicValid(config: map<string, Json>)
  {
    BasicValidation(JObject(config)).0
  }

  /**
   * The basic check passes exactly on mappings whose present known keys are
   * well typed: absent keys, other keys and out-of-range values do not matter.
   */
  lemma BasicValidationIff(config: Json)
    ensures BasicValidation(config).0 <==> config.JObject? && WellTyped(config.fields)
  {
    if config.JObject? {
      var m := config.fields;
      var c := TypeChecks;
      assert c[0] == (AppPath, PyStr) && c[1] == (IconPosition, PyDict);
      assert c[2] == (IconFixed, PyBool) && c[3] == (AutoStart, PyBool);
      assert c[4] == (IconSize, PyInt) && c[5] == (Version, PyStr);
      if WellTyped(m) {
        forall i | 0 <= i < |c| && KeyName(c[i].0) in m
          ensures HasType(m[KeyName(c[i].0)], c[i].1)
        {
        }
      }
    }
  }

  /** Everything the strict validator accepts also passes the check made before saving. */
  lemma StrictImpliesBasic(config: map<string, Json>)
    requires StrictlyValid(config)
    ensures BasicValid(config)
  {
    BasicValidationIff(JObject(config));
  }

  /** A key other than the six checked ones never makes the basic check fail. */
  lemma BasicIgnoresOtherKeys(config: map<string, Json>, k: string, v: Json)
    requires BasicValid(config)
    requires forall key :: k != KeyName(key)
    ensures BasicValid(config[k := v])
  {
    BasicValidationIff(JObject(config));
    assert k != KeyName(AppPath) && k != KeyName(IconPosition) && k != KeyName(IconFixed);
    assert k != KeyName(AutoStart) && k != KeyName(IconSize) && k != KeyName(Version);
    BasicValidationIff(JObject(config[k := v]));
  }

  // ---------------------------------------------------------------------
  // Files and backups

  /** What `json.load` makes of a file: a document, or a `JSONDecodeError`. */
  datatype FileContent = Parsed(doc: Json) | Malformed

  datatype StoredFile = StoredFile(mtime: int, content: FileContent)

  /** An entry of the backup directory; the order of a sequence of them is the listing order. */
  datatype BackupFile = BackupFile(name: string, mtime: int, content: FileContent)

  /** The clock readings one save uses: the modification time, the backup file stamp, the ISO text. */
  datatype Clock = Clock(now: int, stamp: string, iso: string)

  /** Names that the rotation and the recovery treat as backups. */
  predicate IsBackupName(n: string)
  {
    StartsWith(n, "config_backup_") && EndsWith(n, ".json")
  }

  function BackupName(stamp: string): string
  {
    "config_backup_" + stamp + ".json"
  }

  lemma BackupNameMatches(stamp: string)
    ensures IsBackupName(BackupName(stamp))
  {
    var n := BackupName(stamp);
    assert n[..14] == "config_backup_";
    assert n[|n| - 5..] == ".json";
  }

  predicate UniqueNames(s: seq<BackupFile>)
  {
    forall i, j :: 0 <= i < j < |s| ==> s[i].name != s[j].name
  }

  /** The backups in listing order, as the comprehension over `os.listdir` collects them. */
  function Matching(dir: seq<BackupFile>): (r: seq<BackupFile>)
    ensures forall e :: e in r <==> e in dir && IsBackupName(e.name)
    ensures |r| <= |dir|
    ensures UniqueNames(dir) ==> UniqueNames(r)
  {
    if |dir| == 0 then []
    else
      var init := Matching(dir[..|dir| - 1]);
      var last := dir[|dir| - 1];
      assert forall e :: e in dir <==> e in dir[..|dir| - 1] || e == last;
      if IsBackupName(last.name) then init + [last] else init
  }

  /** The number of backups, as `_get_backup_count` counts them. */
  function BackupCount(dir: seq<BackupFile>): nat
  {
    |Matching(dir)|
  }

  /** The order `sort()` puts `(mtime, path)` pairs in; paths in one directory compare by name. */
  predicate KeyLess(a: BackupFile, b: BackupFile)
  {
    a.mtime < b.mtime || (a.mtime == b.mtime && StrLess(a.name, b.name))
  }

  lemma KeyLessTotal(a: BackupFile, b: BackupFile)
    requires a.name != b.name
    ensures KeyLess(a, b) || KeyLess(b, a)
  {
    StrLessTotal(a.name, b.name);
  }

  lemma KeyLessTransitive(a: BackupFile, b: BackupFile, c: BackupFile)
    requires KeyLess(a, b) && KeyLess(b, c)
    ensures KeyLess(a, c)
  {
    if a.mtime == b.mtime && b.mtime == c.mtime {
      StrLessTransitive(a.name, b.name, c.name);
    }
  }

  predicate Ascending(s: seq<BackupFile>)
  {
    forall i, j :: 0 <= i < j < |s| ==> KeyLess(s[i], s[j])
  }

  /** `e` is below every entry of `s` and its name differs from all of theirs. */
  predicate Below(e: BackupFile, s: seq<BackupFile>)
  {
    forall i :: 0 <= i < |s| ==> KeyLess(e, s[i]) && e.name != s[i].name
  }

  function Insert(e: BackupFile, s: seq<BackupFile>): (r: seq<BackupFile>)
    requires Ascending(s) && UniqueNames(s)
    requires forall i :: 0 <= i < |s| ==> s[i].name != e.name
    ensures Ascending(r) && UniqueNames(r)
    ensures multiset(r) == multiset(s) + multiset{e}
  {
    if |s| == 0 then [e]
    else if KeyLess(e, s[0]) then
      InsertHeadBelow(e, s);
      BelowPrepend(e, s);
      [e] + s
    else
      KeyLessTotal(e, s[0]);
      var rest := Insert(e, s[1..]);
      HeadBelowInsert(e, s, rest);
      BelowPrepend(s[0], rest);
      assert s == [s[0]] + s[1..];
      [s[0]] + rest
  }

  lemma InsertHeadBelow(e: BackupFile, s: seq<BackupFile>)
    requires Ascending(s) && |s| > 0 && KeyLess(e, s[0])
    requires forall i :: 0 <= i < |s| ==> s[i].name != e.name
    ensures Below(e, s)
  {
    forall j | 0 <= j < |s| ensures KeyLess(e, s[j]) {
      if j > 0 { KeyLessTransitive(e, s[0], s[j]); }
    }
  }

  lemma HeadBelowInsert(e: BackupFile, s: seq<BackupFile>, rest: seq<BackupFile>)
    requires Ascending(s) && UniqueNames(s) && |s| > 0
    requires KeyLess(s[0], e) && s[0].name != e.name
    requires multiset(rest) == multiset(s[1..]) + multiset{e}
    ensures Below(s[0], rest)
  {
    forall j | 0 <= j < |rest| ensures KeyLess(s[0], rest[j]) && s[0].name != rest[j].name {
      var x := rest[j];
      assert x in multiset(rest);
      if x != e {
        assert x in multiset(s[1..]);
        var k :| 0 <= k < |s[1..]| && s[1..][k] == x;
        assert s[k + 1] == x;
      }
    }
  }

  lemma BelowPrepend(e: BackupFile, s: seq<BackupFile>)
    requires Below(e, s) && Ascending(s) && UniqueNames(s)
    ensures Ascending([e] + s) && UniqueNames([e] + s)
  {
    var r := [e] + s;
    forall i, j | 0 <= i < j < |r| ensures KeyLess(r[i], r[j]) && r[i].name != r[j].name {
      if i > 0 { assert r[i] == s[i - 1] && r[j] == s[j - 1]; }
      else { assert r[j] == s[j - 1]; }
    }
  }

  /** `list.sort()` on the collected backups: ascending by (mtime, name). */
  function SortBackups(s: seq<BackupFile>): (r: seq<BackupFile>)
    requires UniqueNames(s)
    ensures Ascending(r) && UniqueNames(r)
    ensures multiset(r) == multiset(s)
    ensures |r| == |s|
  {
    if |s| == 0 then []
    else
      var rest := SortBackups(s[1..]);
      SortedNamesDiffer(s, rest);
      assert s == [s[0]] + s[1..];
      var r := Insert(s[0], rest);
      assert |r| == |multiset(r)|;
      r
  }

  lemma SortedNamesDiffer(s: seq<BackupFile>, rest: seq<BackupFile>)
    requires UniqueNames(s) && |s| > 0
    requires multiset(rest) == multiset(s[1..])
    ensures forall i :: 0 <= i < |rest| ==> rest[i].name != s[0].name
  {
    forall i | 0 <= i < |rest| ensures rest[i].name != s[0].name {
      assert rest[i] in multiset(s[1..]);
      var k :| 0 <= k < |s[1..]| && s[1..][k] == rest[i];
      assert s[k + 1] == rest[i];
    }
  }

  /** Every entry of a sorted copy is in the original and the other way round. */
  lemma SortedSameElements(s: seq<BackupFile>)
    requires UniqueNames(s)
    ensures forall e :: e in SortBackups(s) <==> e in s
  {
    var r := SortBackups(s);
    forall e ensures e in r <==> e in s {
      assert e in r <==> e in multiset(r);
      assert e in s <==> e in multiset(s);
    }
  }

  /** `os.remove` of one directory entry. */
  function RemoveName(dir: seq<BackupFile>, n: string): (r: seq<BackupFile>)
    ensures |r| <= |dir|
  {
    if |dir| == 0 then []
    else
      var init := RemoveName(dir[..|dir| - 1], n);
      if dir[|dir| - 1].name == n then init else init + [dir[|dir| - 1]]
  }

  /** Exactly the entries with other names survive a removal. */
  lemma {:induction false} RemoveNameMembers(dir: seq<BackupFile>, n: string)
    ensures forall e :: e in RemoveName(dir, n) <==> e in dir && e.name != n
    decreases |dir|
  {
    if |dir| > 0 {
      RemoveNameMembers(dir[..|dir| - 1], n);
      assert forall e :: e in dir <==> e in dir[..|dir| - 1] || e == dir[|dir| - 1];
    }
  }

  /** A removal keeps the names of a directory distinct. */
  lemma {:induction false} RemoveNameUnique(dir: seq<BackupFile>, n: string)
    ensures UniqueNames(dir) ==> UniqueNames(RemoveName(dir, n))
    decreases |dir|
  {
    if |dir| > 0 && UniqueNames(dir) {
      var init := dir[..|dir| - 1];
      var last := dir[|dir| - 1];
      RemoveNameUnique(init, n);
      RemoveNameMembers(init, n);
      assert forall e :: e in RemoveName(init, n) ==> e.name != last.name;
    }
  }

  /** Removing a name no entry carries changes nothing. */
  lemma {:induction false} RemoveNameAbsent(dir: seq<BackupFile>, n: string)
    requires forall i :: 0 <= i < |dir| ==> dir[i].name != n
    ensures RemoveName(dir, n) == dir
    decreases |dir|
  {
    if |dir| > 0 {
      var init := dir[..|dir| - 1];
      RemoveNameAbsent(init, n);
      assert dir == init + [dir[|dir| - 1]];
    }
  }

  /** Removing the one entry of that name, a backup, lowers the backup count by one. */
  lemma {:induction false} RemoveNameCount(dir: seq<BackupFile>, e: BackupFile)
    requires UniqueNames(dir) && e in dir && IsBackupName(e.name)
    ensures |Matching(RemoveName(dir, e.name))| == |Matching(dir)| - 1
  {
    var init := dir[..|dir| - 1];
    var last := dir[|dir| - 1];
    var r := RemoveName(dir, e.name);
    if last.name == e.name {
      assert forall i :: 0 <= i < |init| ==> init[i].name != e.name;
      RemoveNameAbsent(init, e.name);
      assert last == e;
    } else {
      assert e in init;
      RemoveNameCount(init, e);
      assert r[..|r| - 1] == RemoveName(init, e.name);
    }
  }

  /** The names of a list of entries. */
  function Names(s: seq<BackupFile>): (r: set<string>)
    ensures forall i :: 0 <= i < |s| ==> s[i].name in r
  {
    if |s| == 0 then {} else {s[0].name} + Names(s[1..])
  }

  lemma {:induction false} NameIndex(s: seq<BackupFile>, n: string) returns (i: nat)
    requires n in Names(s)
    ensures i < |s| && s[i].name == n
  {
    if s[0].name == n {
      i := 0;
    } else {
      var k := NameIndex(s[1..], n);
      i := k + 1;
    }
  }

  /** Removing the entries named in `doomed`, first to last. */
  function RemoveAll(dir: seq<BackupFile>, doomed: seq<BackupFile>): (r: seq<BackupFile>)
    ensures forall e :: e in r <==> e in dir && e.name !in Names(doomed)
    ensures UniqueNames(dir) ==> UniqueNames(r)
    decreases |doomed|
  {
    if |doomed| == 0 then dir
    else
      RemoveNameMembers(dir, doomed[0].name);
      RemoveNameUnique(dir, doomed[0].name);
      RemoveAll(RemoveName(dir, doomed[0].name), doomed[1..])
  }

  lemma {:induction false} RemoveAllCount(dir: seq<BackupFile>, doomed: seq<BackupFile>)
    requires UniqueNames(dir) && UniqueNames(doomed)
    requires forall i :: 0 <= i < |doomed| ==> doomed[i] in dir && IsBackupName(doomed[i].name)
    ensures |Matching(RemoveAll(dir, doomed))| == |Matching(dir)| - |doomed|
    decreases |doomed|
  {
    if |doomed| > 0 {
      var first := doomed[0];
      var rest := doomed[1..];
      var d := RemoveName(dir, first.name);
      RemoveNameCount(dir, first);
      RemoveNameMembers(dir, first.name);
      RemoveNameUnique(dir, first.name);
      forall i | 0 <= i < |rest| ensures rest[i] in d {
        assert rest[i] == doomed[i + 1] && rest[i].name != first.name;
      }
      RemoveAllCount(d, rest);
    }
  }

  lemma UniquePrefix(s: seq<BackupFile>, k: nat)
    requires UniqueNames(s) && k <= |s|
    ensures UniqueNames(s[..k])
  {
    forall i, j | 0 <= i < j < k ensures s[..k][i].name != s[..k][j].name {
      assert s[..k][i] == s[i] && s[..k][j] == s[j];
    }
  }

  /** The oldest `k` backups in sorted order are distinct backups of the directory. */
  lemma SortedPrefix(dir: seq<BackupFile>, k: nat)
    requires UniqueNames(dir) && k <= |SortBackups(Matching(dir))|
    ensures var p := SortBackups(Matching(dir))[..k];
      UniqueNames(p) && forall i :: 0 <= i < |p| ==> p[i] in dir && IsBackupName(p[i].name)
  {
    var s := SortBackups(Matching(dir));
    UniquePrefix(s, k);
    SortedSameElements(Matching(dir));
    forall i | 0 <= i < k ensures s[..k][i] in dir && IsBackupName(s[..k][i].name) {
      assert s[..k][i] == s[i] && s[i] in s;
    }
  }

  /**
   * The backups `_cleanup_old_backups(max)` deletes, with the count its
   * docstring describes: when more than `max` backups exist, the oldest
   * `count - max` by (mtime, name); otherwise none.
   */
  function Doomed(dir: seq<BackupFile>, max: nat): (r: seq<BackupFile>)
    requires UniqueNames(dir)
    ensures UniqueNames(r)
    ensures forall i :: 0 <= i < |r| ==> r[i] in dir && IsBackupName(r[i].name)
    ensures |r| == if BackupCount(dir) > max then BackupCount(dir) - max else 0
  {
    var s := SortBackups(Matching(dir));
    var k := if |s| > max then |s| - max else 0;
    SortedPrefix(dir, k);
    s[..k]
  }

  /** The directory after `_cleanup_old_backups(max)`. */
  function CleanedUp(dir: seq<BackupFile>, max: nat): (r: seq<BackupFile>)
    requires UniqueNames(dir)
    ensures UniqueNames(r)
    ensures forall e :: e in r ==> e in dir
  {
    RemoveAll(dir, Doomed(dir, max))
  }

  /** At most `max` backups remain, and fewer only when fewer existed. */
  lemma CleanupBound(dir: seq<BackupFile>, max: nat)
    requires UniqueNames(dir)
    ensures BackupCount(CleanedUp(dir, max)) == if BackupCount(dir) > max then max else BackupCount(dir)
  {
    RemoveAllCount(dir, Doomed(dir, max));
  }

  lemma SameNameSameEntry(dir: seq<BackupFile>, a: BackupFile, b: BackupFile)
    requires UniqueNames(dir) && a in dir && b in dir && a.name == b.name
    ensures a == b
  {
    var i :| 0 <= i < |dir| && dir[i] == a;
    var j :| 0 <= j < |dir| && dir[j] == b;
  }

  /** Where an entry that survives removal of the first `k` sits in `s`. */
  lemma SurvivorIndex(s: seq<BackupFile>, k: nat, e: BackupFile) returns (p: nat)
    requires k <= |s| && e in s && e.name !in Names(s[..k])
    ensures k <= p < |s| && s[p] == e
  {
    p :| 0 <= p < |s| && s[p] == e;
  }

  /** Every surviving backup is newer, by (mtime, name), than every deleted one. */
  lemma CleanupKeepsNewest(dir: seq<BackupFile>, max: nat, kept: BackupFile, gone: BackupFile)
    requires UniqueNames(dir)
    requires kept in CleanedUp(dir, max) && IsBackupName(kept.name)
    requires gone in dir && IsBackupName(gone.name) && gone !in CleanedUp(dir, max)
    ensures KeyLess(gone, kept)
  {
    var m := Matching(dir);
    var s := SortBackups(m);
    SortedSameElements(m);
    assert |s| > max;
    var k := |s| - max;
    var doomed := s[..k];
    var p := SurvivorIndex(s, k, kept);
    var q := NameIndex(doomed, gone.name);
    assert doomed[q] == s[q] && s[q] in m;
    SameNameSameEntry(dir, s[q], gone);
  }

  /** Removing only backups keeps every entry that is not one. */
  lemma RemoveAllKeepsOthers(dir: seq<BackupFile>, doomed: seq<BackupFile>, e: BackupFile)
    requires forall i :: 0 <= i < |doomed| ==> IsBackupName(doomed[i].name)
    requires e in dir && !IsBackupName(e.name)
    ensures e in RemoveAll(dir, doomed)
  {
    if e.name in Names(doomed) {
      var q := NameIndex(doomed, e.name);
      assert false;
    }
  }

  /** Files that are not backups are never deleted. */
  lemma CleanupKeepsOthers(dir: seq<BackupFile>, max: nat)
    requires UniqueNames(dir)
    ensures forall e :: e in dir && !IsBackupName(e.name) ==> e in CleanedUp(dir, max)
  {
    forall e | e in dir && !IsBackupName(e.name)
      ensures e in CleanedUp(dir, max)
    {
      RemoveAllKeepsOthers(dir, Doomed(dir, max), e);
    }
  }

  // The deletion as `_cleanup_old_backups` writes it: it deletes `backup_files[:-max_backups]`.

  /** The stop index Python uses for `s[:stop]`. */
  function PySliceStop(n: nat, stop: int): (r: nat)
    ensures r <= n
  {
    if stop < 0 then (if n + stop < 0 then 0 else n + stop)
    else if stop > n then n
    else stop
  }

  function CleanedUpAsWritten(dir: seq<BackupFile>, max: int): (r: seq<BackupFile>)
    requires UniqueNames(dir)
    ensures UniqueNames(r)
    ensures forall e :: e in r ==> e in dir
  {
    var s := SortBackups(Matching(dir));
    if |s| > max then RemoveAll(dir, s[..PySliceStop(|s|, -max)]) else dir
  }

  /** With a positive limit the slice `backup_files[:-max_backups]` deletes the same backups. */
  lemma CleanupAsWrittenAgrees(dir: seq<BackupFile>, max: nat)
    requires UniqueNames(dir) && max > 0
    ensures CleanedUpAsWritten(dir, max) == CleanedUp(dir, max)
  {
    var s := SortBackups(Matching(dir));
    var m: int := max;
    if |s| > max {
      assert PySliceStop(|s|, -m) + max == |s|;
    }
  }

  /** With a limit of 0, `[:-0]` is empty: every backup survives, however many there are. */
  lemma CleanupZeroKeepsAll(dir: seq<BackupFile>)
    requires UniqueNames(dir) && BackupCount(dir) > 0
    ensures CleanedUpAsWritten(dir, 0) == dir
    ensures BackupCount(CleanedUpAsWritten(dir, 0)) > 0
  {
  }

  /** `shutil.copy2` into the backup directory: same name overwrites, a new name is added at the end. */
  function PutBackup(dir: seq<BackupFile>, e: BackupFile): (r: seq<BackupFile>)
    requires UniqueNames(dir)
    ensures UniqueNames(r)
    ensures e in r
    ensures forall x :: x in r ==> x == e || (x in dir && x.name != e.name)
    ensures forall x :: x in dir && x.name != e.name ==> x in r
  {
    if |dir| == 0 then [e]
    else if dir[0].name == e.name then
      assert forall x :: x in dir[1..] ==> x.name != e.name;
      [e] + dir[1..]
    else
      var rest := PutBackup(dir[1..], e);
      assert forall x :: x in dir <==> x == dir[0] || x in dir[1..];
      [dir[0]] + rest
  }

  /** The directory after `backup_config` succeeded on live file `f`. */
  function BackedUp(f: StoredFile, dir: seq<BackupFile>, stamp: string): seq<BackupFile>
    requires UniqueNames(dir)
  {
    CleanedUp(PutBackup(dir, BackupFile(BackupName(stamp), f.mtime, f.content)), 5)
  }

  lemma BackupVisibleAfterBackup(f: StoredFile, dir: seq<BackupFile>, stamp: string)
    requires UniqueNames(dir)
    ensures BackupCount(BackedUp(f, dir, stamp)) <= 5
    ensures BackupCount(BackedUp(f, dir, stamp)) >= 1
  {
    var e := BackupFile(BackupName(stamp), f.mtime, f.content);
    var d := PutBackup(dir, e);
    BackupNameMatches(stamp);
    assert e in Matching(d);
    CleanupBound(d, 5);
  }

  /** The `_metadata` entry `save_config` attaches. */
  function Metadata(iso: string, count: nat): Json
  {
    JObject(map["last_modified" := JStr(iso), "backup_count" := JInt(count)])
  }

  function WithMetadata(config: map<string, Json>, iso: string, count: nat): map<string, Json>
  {
    config["_metadata" := Metadata(iso, count)]
  }

  function SavedFile(config: map<string, Json>, now: Clock, count: nat): StoredFile
  {
    StoredFile(now.now, Parsed(JObject(WithMetadata(config, now.iso, count))))
  }

  /** What `load_config` returns; `NotAnObject` is the `AttributeError` a non-object document raises. */
  datatype LoadResult = Loaded(config: map<string, Json>) | NotAnObject

  /** What `load_config` makes of a parsed document: the mapping without `_metadata`. */
  function ViewOf(doc: Json): (r: LoadResult)
    ensures r.Loaded? <==> doc.JObject?
    ensures r.Loaded? ==> "_metadata" !in r.config
    ensures r.Loaded? ==> forall k :: k in doc.fields && k != "_metadata" ==> k in r.config && r.config[k] == doc.fields[k]
  {
    if doc.JObject? then Loaded(doc.fields - {"_metadata"}) else NotAnObject
  }

  /** Loading what was saved gives the saved mapping back, less any `_metadata` key. */
  lemma SaveLoadRoundTrip(config: map<string, Json>, now: Clock, count: nat)
    ensures ViewOf(SavedFile(config, now, count).content.doc) == Loaded(config - {"_metadata"})
  {
    var m := WithMetadata(config, now.iso, count);
    assert m - {"_metadata"} == config - {"_metadata"};
  }

  /** The newest (by mtime, name) backup that parses, as the recovery loop finds it. */
  function FirstParsed(s: seq<BackupFile>): (r: Option<nat>)
    ensures r.Some? ==> r.value < |s| && s[r.value].content.Parsed?
    ensures r.Some? ==> forall j :: 0 <= j < r.value ==> s[j].content.Malformed?
    ensures r.None? ==> forall j :: 0 <= j < |s| ==> s[j].content.Malformed?
  {
    if |s| == 0 then None
    else if s[0].content.Parsed? then Some(0)
    else match FirstParsed(s[1..])
      case None => None
      case Some(i) => Some(i + 1)
  }

  lemma FirstParsedAt(s: seq<BackupFile>, i: nat)
    requires i < |s| && s[i].content.Parsed?
    requires forall j :: 0 <= j < i ==> s[j].content.Malformed?
    ensures FirstParsed(s) == Some(i)
  {
  }

  function Reverse(s: seq<BackupFile>): (r: seq<BackupFile>)
    ensures |r| == |s|
    ensures forall i :: 0 <= i < |s| ==> r[i] == s[|s| - 1 - i]
  {
    if |s| == 0 then [] else Reverse(s[1..]) + [s[0]]
  }

  /** `sort(reverse=True)`: newest first. */
  function NewestFirst(dir: seq<BackupFile>): seq<BackupFile>
    requires UniqueNames(dir)
  {
    Reverse(SortBackups(Matching(dir)))
  }

  function LatestRestorable(dir: seq<BackupFile>): Option<BackupFile>
    requires UniqueNames(dir)
  {
    var s := NewestFirst(dir);
    match FirstParsed(s)
    case None => None
    case Some(i) => Some(s[i])
  }

  /**
   * What `load_config` returns: the defaults for a missing or unreadable
   * file, the view of a document that parses, and for a malformed one the
   * view of the newest restorable backup or, when none parses, the defaults.
   */
  function LoadedView(live: Option<StoredFile>, backups: seq<BackupFile>, ioFails: bool): (r: LoadResult)
    requires UniqueNames(backups)
    ensures r.NotAnObject? ==> live.Some? && !ioFails
    ensures r.Loaded? ==> "_metadata" !in r.config
  {
    if live.None? || ioFails then Loaded(DefaultConfig())
    else match live.value.content
      case Parsed(doc) => ViewOf(doc)
      case Malformed =>
        match LatestRestorable(backups)
        case Some(b) => ViewOf(b.content.doc)
        case None => Loaded(DefaultConfig())
  }

  /** The live file and the backups after `save_config(config)`. */
  function SavedStore(live: Option<StoredFile>, backups: seq<BackupFile>, config: map<string, Json>,
                      ioFails: bool, now: Clock): (r: (Option<StoredFile>, seq<BackupFile>))
    requires UniqueNames(backups)
    ensures UniqueNames(r.1)
    ensures !BasicValid(config) || ioFails ==> r == (live, backups)
    ensures BasicValid(config) && !ioFails ==> r.0 == Some(SavedFile(config, now, BackupCount(r.1)))
  {
    if BasicValid(config) && !ioFails then
      var d := if live.Some? then BackedUp(live.value, backups, now.stamp) else backups;
      (Some(SavedFile(config, now, BackupCount(d))), d)
    else (live, backups)
  }

  /**
   * The live file and the backups after `load_config`: a missing file is
   * replaced by the saved defaults, a malformed one by the newest restorable
   * backup or else, after a backup of it, by the saved defaults.
   */
  function LoadedStore(live: Option<StoredFile>, backups: seq<BackupFile>, ioFails: bool, now: Clock)
    : (r: (Option<StoredFile>, seq<BackupFile>))
    requires UniqueNames(backups)
    ensures UniqueNames(r.1)
    ensures ioFails ==> r == (live, backups)
    ensures live.Some? && live.value.content.Parsed? ==> r == (live, backups)
  {
    if live.None? then
      SavedStore(live, backups, DefaultConfig(), ioFails, now)
    else if ioFails then (live, backups)
    else match live.value.content
      case Parsed(_) => (live, backups)
      case Malformed =>
        match LatestRestorable(backups)
        case Some(b) => (Some(StoredFile(b.mtime, b.content)), backups)
        case None => SavedStore(live, backups, DefaultConfig(), ioFails, now)
  }

  lemma ReverseElements(s: seq<BackupFile>)
    ensures forall e :: e in Reverse(s) <==> e in s
  {
    var r := Reverse(s);
    forall e | e in s ensures e in r {
      var k :| 0 <= k < |s| && s[k] == e;
      assert r[|s| - 1 - k] == e;
    }
  }

  lemma ReverseDescending(s: seq<BackupFile>)
    requires Ascending(s)
    ensures forall i, j :: 0 <= i < j < |s| ==> KeyLess(Reverse(s)[j], Reverse(s)[i])
  {
    var r := Reverse(s);
    forall i, j | 0 <= i < j < |s| ensures KeyLess(r[j], r[i]) {
      assert r[j] == s[|s| - 1 - j] && r[i] == s[|s| - 1 - i];
    }
  }

  lemma NewestFirstMembers(dir: seq<BackupFile>)
    requires UniqueNames(dir)
    ensures forall e :: e in NewestFirst(dir) <==> e in dir && IsBackupName(e.name)
  {
    var m := Matching(dir);
    SortedSameElements(m);
    ReverseElements(SortBackups(m));
  }

  lemma NewestFirstDescending(dir: seq<BackupFile>)
    requires UniqueNames(dir)
    ensures forall i, j :: 0 <= i < j < |NewestFirst(dir)| ==> KeyLess(NewestFirst(dir)[j], NewestFirst(dir)[i])
  {
    ReverseDescending(SortBackups(Matching(dir)));
  }

  /**
   * Recovery picks the newest backup that parses: it is a backup, it parses,
   * and every other parsing backup is older by (mtime, name).
   */
  lemma LatestRestorableIsNewest(dir: seq<BackupFile>, e: BackupFile)
    requires UniqueNames(dir) && LatestRestorable(dir).Some?
    requires e in dir && IsBackupName(e.name) && e.content.Parsed?
    ensures var b := LatestRestorable(dir).value;
      b in dir && IsBackupName(b.name) && b.content.Parsed? && (e == b || KeyLess(e, b))
  {
    var s := NewestFirst(dir);
    var i := FirstParsed(s).value;
    NewestFirstMembers(dir);
    assert s[i] in s;
    assert e in s;
    var k :| 0 <= k < |s| && s[k] == e;
    if k != i {
      assert k > i;
      NewestFirstDescending(dir);
    }
  }

  /** Recovery finds nothing exactly when no backup parses. */
  lemma LatestRestorableNone(dir: seq<BackupFile>)
    requires UniqueNames(dir)
    ensures LatestRestorable(dir).None? <==> forall e :: e in dir && IsBackupName(e.name) ==> e.content.Malformed?
  {
    var s := NewestFirst(dir);
    NewestFirstMembers(dir);
    if LatestRestorable(dir).None? {
      forall e | e in dir && IsBackupName(e.name) ensures e.content.Malformed? {
        var k :| 0 <= k < |s| && s[k] == e;
      }
    } else {
      assert s[FirstParsed(s).value] in s;
    }
  }

  /** `restore_from_backup` by name: an entry of the backup directory. */
  function Lookup(dir: seq<BackupFile>, name: string): (r: Option<BackupFile>)
    ensures r.Some? ==> r.value in dir && r.value.name == name
    ensures r.None? ==> forall e :: e in dir ==> e.name != name
  {
    if |dir| == 0 then None
    else if dir[0].name == name then Some(dir[0])
    else Lookup(dir[1..], name)
  }

  lemma LookupUnique(dir: seq<BackupFile>, e: BackupFile)
    requires UniqueNames(dir) && e in dir
    ensures Lookup(dir, e.name) == Some(e)
  {
    var r := Lookup(dir, e.name);
    var i :| 0 <= i < |dir| && dir[i] == e;
    var j :| 0 <= j < |dir| && dir[j] == r.value;
  }

  // ---------------------------------------------------------------------
  // The store

  class ConfigStore {
    /** `config.json`, if it exists. */
    var live: Option<StoredFile>
    /** The `backups/` directory in listing order. */
    var backups: seq<BackupFile>
    /** Every open, copy and write of a file raises `OSError`. */
    const ioFails: bool

    ghost predicate Valid()
      reads this
    {
      UniqueNames(backups)
    }

    constructor(live0: Option<StoredFile>, backups0: seq<BackupFile>, ioFails0: bool)
      requires UniqueNames(backups0)
      ensures Valid()
      ensures live == live0 && backups == backups0 && ioFails == ioFails0
    {
      live := live0;
      backups := backups0;
      ioFails := ioFails0;
    }

    /** The listing loop shared by rotation and recovery: backups in listing order. */
    method ListBackups() returns (files: seq<BackupFile>)
      ensures files == Matching(backups)
    {
      files := [];
      for i := 0 to |backups|
        invariant files == Matching(backups[..i])
      {
        assert backups[..i + 1][..i] == backups[..i];
        if IsBackupName(backups[i].name) {
          files := files + [backups[i]];
        }
      }
      assert backups[..|backups|] == backups;
    }

    /** The deletion loop of `_cleanup_old_backups`: `os.remove` on each entry of `doomed`. */
    method RemoveBackups(doomed: seq<BackupFile>)
      requires Valid()
      modifies this
      ensures Valid()
      ensures live == old(live)
      ensures backups == RemoveAll(old(backups), doomed)
    {
      var i := 0;
      while i < |doomed|
        invariant 0 <= i <= |doomed|
        invariant Valid() && live == old(live)
        invariant RemoveAll(backups, doomed[i..]) == RemoveAll(old(backups), doomed)
      {
        assert doomed[i..][1..] == doomed[i + 1..];
        RemoveNameUnique(backups, doomed[i].name);
        backups := RemoveName(backups, doomed[i].name);
        i := i + 1;
      }
    }

    /** `_cleanup_old_backups` */
    method CleanupOldBackups(maxBackups: nat)
      requires Valid()
      modifies this
      ensures Valid()
      ensures live == old(live)
      ensures backups == CleanedUp(old(backups), maxBackups)
    {
      var files := ListBackups();
      if |files| > maxBackups {
        var sorted := SortBackups(files);
        RemoveBackups(sorted[..|sorted| - maxBackups]);
      }
    }

    /** `backup_config`: copy the live file into the directory, then rotate. */
    method BackupConfig(now: Clock) returns (path: Option<string>)
      requires Valid()
      modifies this
      ensures Valid()
      ensures live == old(live)
      ensures path.None? <==> old(live).None? || ioFails
      ensures path.None? ==> backups == old(backups)
      ensures path.Some? ==> path.value == BackupName(now.stamp)
      ensures path.Some? ==> backups == BackedUp(old(live).value, old(backups), now.stamp)
    {
      if live.None? || ioFails {
        return None;
      }
      var name := BackupName(now.stamp);
      backups := PutBackup(backups, BackupFile(name, live.value.mtime, live.value.content));
      CleanupOldBackups(5);
      return Some(name);
    }

    /** `save_config` */
    method SaveConfig(config: map<string, Json>, now: Clock) returns (ok: bool)
      requires Valid()
      modifies this
      ensures Valid()
      ensures ok <==> BasicValid(config) && !ioFails
      ensures (live, backups) == SavedStore(old(live), old(backups), config, ioFails, now)
      ensures !ok ==> live == old(live) && backups == old(backups)
      ensures ok ==> backups == (if old(live).Some? then BackedUp(old(live).value, old(backups), now.stamp) else old(backups))
      ensures ok ==> live == Some(SavedFile(config, now, BackupCount(backups)))
    {
      if !BasicValidation(JObject(config)).0 {
        return false;
      }
      if live.Some? {
        var _ := BackupConfig(now);
      }
      var count := BackupCount(backups);
      if ioFails {
        return false;
      }
      live := Some(SavedFile(config, now, count));
      return true;
    }

    /** `reset_to_default` */
    method ResetToDefault(now: Clock) returns (ok: bool)
      requires Valid()
      modifies this
      ensures Valid()
      ensures ok <==> !ioFails
      ensures (live, backups) == SavedStore(old(live), old(backups), DefaultConfig(), ioFails, now)
      ensures ok ==> backups == (if old(live).Some? then BackedUp(old(live).value, old(backups), now.stamp) else old(backups))
      ensures ok ==> live == Some(SavedFile(DefaultConfig(), now, BackupCount(backups)))
      ensures !ok ==> live == old(live) && backups == old(backups)
    {
      DefaultConfigValid();
      StrictImpliesBasic(DefaultConfig());
      ok := SaveConfig(DefaultConfig(), now);
    }

    /** `restore_from_backup`: a backup that parses replaces the live file. */
    method RestoreFromBackup(name: string) returns (ok: bool)
      requires Valid()
      modifies this
      ensures Valid()
      ensures backups == old(backups)
      ensures ok <==> !ioFails && Lookup(backups, name).Some? && Lookup(backups, name).value.content.Parsed?
      ensures ok ==> live == Some(StoredFile(Lookup(backups, name).value.mtime, Lookup(backups, name).value.content))
      ensures !ok ==> live == old(live)
    {
      var found := Lookup(backups, name);
      if found.None? || ioFails || found.value.content.Malformed? {
        return false;
      }
      live := Some(StoredFile(found.value.mtime, found.value.content));
      return true;
    }

    /** The recovery loop: try each candidate in turn until one restores. */
    method RestoreFirst(ordered: seq<BackupFile>) returns (restored: bool)
      requires Valid()
      requires forall i :: 0 <= i < |ordered| ==> ordered[i] in backups
      modifies this
      ensures Valid()
      ensures backups == old(backups)
      ensures restored <==> !ioFails && FirstParsed(ordered).Some?
      ensures restored ==> live == Some(StoredFile(ordered[FirstParsed(ordered).value].mtime, ordered[FirstParsed(ordered).value].content))
      ensures !restored ==> live == old(live)
    {
      for i := 0 to |ordered|
        invariant live == old(live) && backups == old(backups)
        invariant !ioFails ==> forall j :: 0 <= j < i ==> ordered[j].content.Malformed?
      {
        LookupUnique(backups, ordered[i]);
        var ok := RestoreFromBackup(ordered[i].name);
        if ok {
          FirstParsedAt(ordered, i);
          return true;
        }
      }
      return false;
    }

    /** `_try_restore_from_latest_backup`: newest first, the first one that restores wins. */
    method TryRestoreFromLatestBackup() returns (restored: bool)
      requires Valid()
      modifies this
      ensures Valid()
      ensures backups == old(backups)
      ensures restored <==> !ioFails && LatestRestorable(backups).Some?
      ensures restored ==> live == Some(StoredFile(LatestRestorable(backups).value.mtime, LatestRestorable(backups).value.content))
      ensures !restored ==> live == old(live)
    {
      var files := ListBackups();
      if |files| == 0 {
        assert NewestFirst(backups) == [];
        return false;
      }
      var ordered := Reverse(SortBackups(files));
      assert ordered == NewestFirst(backups);
      NewestFirstMembers(backups);
      restored := RestoreFirst(ordered);
    }

    /**
     * `load_config`: a missing file is replaced by the saved defaults, a
     * parsed one is returned without `_metadata`, an unreadable one gives the
     * defaults, and a malformed one is recovered from the newest parsing
     * backup or else overwritten with the defaults.
     */
    method LoadConfig(now: Clock) returns (r: LoadResult)
      requires Valid()
      modifies this
      ensures Valid()
      ensures r == LoadedView(old(live), old(backups), ioFails)
      ensures (live, backups) == LoadedStore(old(live), old(backups), ioFails, now)
      ensures old(live).None? ==>
        && r == Loaded(DefaultConfig())
        && backups == old(backups)
        && live == (if ioFails then None else Some(SavedFile(DefaultConfig(), now, BackupCount(backups))))
      ensures old(live).Some? && ioFails ==>
        r == Loaded(DefaultConfig()) && live == old(live) && backups == old(backups)
      ensures old(live).Some? && !ioFails && old(live).value.content.Parsed? ==>
        r == ViewOf(old(live).value.content.doc) && live == old(live) && backups == old(backups)
      ensures old(live).Some? && !ioFails && old(live).value.content.Malformed? ==>
        match LatestRestorable(old(backups))
        case Some(b) =>
          r == ViewOf(b.content.doc) && live == Some(StoredFile(b.mtime, b.content)) && backups == old(backups)
        case None =>
          && r == Loaded(DefaultConfig())
          && backups == BackedUp(old(live).value, old(backups), now.stamp)
          && live == Some(SavedFile(DefaultConfig(), now, BackupCount(backups)))
      decreases if live.Some? && live.value.content.Malformed? then 2 else 0
    {
      DefaultConfigValid();
      StrictImpliesBasic(DefaultConfig());
      if live.None? {
        var _ := SaveConfig(DefaultConfig(), now);
        return Loaded(DefaultConfig());
      }
      if ioFails {
        return Loaded(DefaultConfig());
      }
      match live.value.content
      case Parsed(doc) =>
        return ViewOf(doc);
      case Malformed =>
        r := RecoverConfig(now);
    }

    /**
     * The `JSONDecodeError` handler of `load_config`: reload after restoring
     * the newest restorable backup, or else save and return the defaults.
     */
    method RecoverConfig(now: Clock) returns (r: LoadResult)
      requires Valid() && live.Some? && !ioFails && live.value.content.Malformed?
      modifies this
      ensures Valid()
      ensures match LatestRestorable(old(backups))
        case Some(b) =>
          r == ViewOf(b.content.doc) && live == Some(StoredFile(b.mtime, b.content)) && backups == old(backups)
        case None =>
          && r == Loaded(DefaultConfig())
          && backups == BackedUp(old(live).value, old(backups), now.stamp)
          && live == Some(SavedFile(DefaultConfig(), now, BackupCount(backups)))
      decreases 1
    {
      var restored := TryRestoreFromLatestBackup();
      if restored {
        r := LoadConfig(now);
      } else {
        DefaultConfigValid();
        StrictImpliesBasic(DefaultConfig());
        var _ := SaveConfig(DefaultConfig(), now);
        r := Loaded(DefaultConfig());
      }
    }

    /** A successful save is read back as the saved mapping without `_metadata`. */
    method SaveThenLoad(config: map<string, Json>, saveTime: Clock, loadTime: Clock)
      returns (saved: bool, loaded: LoadResult)
      requires Valid()
      modifies this
      ensures Valid()
      ensures saved <==> BasicValid(config) && !ioFails
      ensures saved ==> loaded == Loaded(config - {"_metadata"})
    {
      saved := SaveConfig(config, saveTime);
      if saved {
        SaveLoadRoundTrip(config, saveTime, BackupCount(backups));
      }
      loaded := LoadConfig(loadTime);
    }
  }
}
