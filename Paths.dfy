/**
 * Windows path handling (`ntpath`, `pathlib.PureWindowsPath`) as far as the
 * launcher, the auto-start code and the settings tabs use it, and the file
 * system as an oracle: a map from path to what is there.
 */
module Paths {
  import opened Text

  /** An existing path is a regular file of some size or a directory. */
  datatype Entry = File(size: nat) | Directory

  type FileSystem = map<string, Entry>

  predicate Exists(fs: FileSystem, p: string)
  {
    p in fs
  }

  predicate IsFile(fs: FileSystem, p: string)
  {
    p in fs && fs[p].File?
  }

  predicate IsDir(fs: FileSystem, p: string)
  {
    p in fs && fs[p].Directory?
  }

  predicate IsSep(c: char)
  {
    c == '\\' || c == '/'
  }

  /** `s.rfind(c)`: the last position holding `c`. */
  function RFind(s: string, c: char): (r: Option<nat>)
    ensures r.Some? ==> r.value < |s| && s[r.value] == c
    ensures r.Some? ==> forall k :: r.value < k < |s| ==> s[k] != c
    ensures r.None? ==> c !in s
  {
    if |s| == 0 then None
    else if s[|s| - 1] == c then Some(|s| - 1)
    else RFind(s[..|s| - 1], c)
  }

  /** The part of `p` after its last separator (all of `p` when it has none). */
  function AfterLastSep(p: string): (r: string)
    ensures EndsWith(p, r)
    ensures forall k :: 0 <= k < |r| ==> !IsSep(r[k])
    ensures r == p || IsSep(p[|p| - |r| - 1])
  {
    if |p| == 0 then ""
    else if IsSep(p[|p| - 1]) then ""
    else AfterLastSep(p[..|p| - 1]) + [p[|p| - 1]]
  }

  /** `ntpath.splitdrive` for drive-letter paths: what follows `X:`. */
  function StripDrive(p: string): string
  {
    if |p| >= 2 && p[1] == ':' then p[2..] else p
  }

  /** `ntpath.basename`. */
  function Basename(p: string): string
  {
    AfterLastSep(StripDrive(p))
  }

  /**
   * `ntpath.isabs` as Python 3.12 and earlier have it: a path is absolute
   * when it starts with a separator or has a drive followed by one.
   */
  predicate IsAbs(p: string)
  {
    (|p| >= 1 && IsSep(p[0])) || (|p| >= 3 && p[1] == ':' && IsSep(p[2]))
  }

  /** `ntpath.join(a, b)` for a relative `b` without a drive. */
  function Join(a: string, b: string): (r: string)
    ensures EndsWith(r, b)
  {
    if a == "" then b
    else if IsSep(a[|a| - 1]) || (|a| == 2 && a[1] == ':') then a + b
    else a + "\\" + b
  }

  function TrimTrailingSeps(p: string): (r: string)
    ensures |r| <= |p| && r == p[..|r|]
    ensures r == "" || !IsSep(r[|r| - 1])
  {
    if |p| > 0 && IsSep(p[|p| - 1]) then TrimTrailingSeps(p[..|p| - 1]) else p
  }

  lemma EndsWithTrans(a: string, b: string, c: string)
    requires EndsWith(a, b) && EndsWith(b, c)
    ensures EndsWith(a, c)
  {
    assert a[|a| - |c|..] == b[|b| - |c|..];
  }

  lemma EndsWithTail(a: string, i: nat)
    requires i <= |a|
    ensures EndsWith(a, a[i..])
  {
  }

  /** Every tail of the final component is a tail of the whole path. */
  lemma BasenameTail(t: string, i: nat)
    requires i <= |Basename(t)|
    ensures EndsWith(t, Basename(t)[i..])
  {
    var name := Basename(t);
    EndsWithTail(name, i);
    EndsWithTrans(StripDrive(t), name, name[i..]);
    if |t| >= 2 && t[1] == ':' {
      EndsWithTail(t, 2);
      EndsWithTrans(t, StripDrive(t), name[i..]);
    }
  }

  /**
   * `Path(p).suffix`: from the last dot of the final component, provided the
   * dot is neither its first nor its last character; otherwise empty.
   */
  function PathSuffix(p: string): (r: string)
    ensures r == "" || (r[0] == '.' && |r| >= 2 && EndsWith(TrimTrailingSeps(p), r))
  {
    var t := TrimTrailingSeps(p);
    var name := Basename(t);
    match RFind(name, '.')
    case Some(i) =>
      if 0 < i < |name| - 1 then
        BasenameTail(t, i);
        name[i..]
      else ""
    case None => ""
  }

  /**
   * The extension `os.path.splitext(p)` splits off: from the last dot of
   * the final component, unless everything before that dot is dots.
   */
  function SplitExt(p: string): (r: string)
    ensures r == "" || (r[0] == '.' && EndsWith(p, r))
  {
    var b := AfterLastSep(p);
    match RFind(b, '.')
    case Some(i) =>
      if exists k :: 0 <= k < i && b[k] != '.' then
        EndsWithTail(b, i);
        EndsWithTrans(p, b, b[i..]);
        b[i..]
      else ""
    case None => ""
  }
}
